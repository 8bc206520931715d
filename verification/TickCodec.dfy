/**
 The line codec. It stands in for the JSON encoding of `{"seq": n, "tick": {...}}`: one object per
 line between braces, the seq in decimal, a colon, and the tick's fields. Field bytes are written as
 pairs of letters, so no field can contain a brace, a separator or a newline.

 As in the program there are two layers. The index and the compactor only need an object that
 carries a seq (`Load`); the reader also needs the tick (`TickFromBody`).
 */
module TickCodec {
  import opened Bytes

  /** `instId` and `tradeId` drive deduplication; `price` and `size` are the texts of floats. */
  datatype TradeTick = TradeTick(instId: Bytes, ts: int, price: Bytes, size: Bytes, side: Bytes, tradeId: Bytes)

  type Plain = s: Bytes | IsPlain(s)

  /** A decoded object with a seq whose other content is not interpreted yet. */
  datatype RecordObject = RecordObject(seqNo: int, body: Plain)

  const COLON: Byte := 58

  const COMMA: Byte := 44

  const MINUS: Byte := 45

  predicate IsPlain(s: Bytes) {
    forall i :: 0 <= i < |s| ==> s[i] != OPEN_BRACE && s[i] != CLOSE_BRACE && s[i] != NEWLINE
  }

  // ---------- decimal numbers ----------

  predicate IsDigit(b: Byte) {
    48 <= b <= 57
  }

  function PrintNat(n: nat): (s: Bytes)
    ensures s != [] && forall i :: 0 <= i < |s| ==> IsDigit(s[i])
  {
    if n < 10 then [48 + n] else PrintNat(n / 10) + [48 + n % 10]
  }

  function ParseNat(s: Bytes): (n: Option<nat>) {
    if s == [] || !IsDigit(s[|s| - 1]) then None
    else if |s| == 1 then Some(s[0] - 48)
    else
      match ParseNat(s[..|s| - 1])
      case Some(m) => Some(10 * m + (s[|s| - 1] - 48))
      case None => None
  }

  lemma {:induction false} NatRoundTrip(n: nat)
    ensures ParseNat(PrintNat(n)) == Some(n)
  {
    if n >= 10 {
      NatRoundTrip(n / 10);
      var s := PrintNat(n);
      assert s[..|s| - 1] == PrintNat(n / 10);
    }
  }

  function PrintInt(n: int): (s: Bytes)
    ensures s != [] && forall i :: 0 <= i < |s| ==> IsDigit(s[i]) || s[i] == MINUS
  {
    if n < 0 then [MINUS] + PrintNat(-n) else PrintNat(n)
  }

  function ParseInt(s: Bytes): (n: Option<int>) {
    if s != [] && s[0] == MINUS then
      match ParseNat(s[1..])
      case Some(m) => Some(-(m as int))
      case None => None
    else ParseNat(s)
  }

  lemma IntRoundTrip(n: int)
    ensures ParseInt(PrintInt(n)) == Some(n)
  {
    if n < 0 {
      NatRoundTrip(-n);
      assert PrintInt(n)[1..] == PrintNat(-n);
    } else {
      NatRoundTrip(n);
    }
  }

  // ---------- splitting at a separator ----------

  /** Index of the first `sep` in `s`, or |s|. */
  function IndexOf(s: Bytes, sep: Byte): (n: nat)
    ensures n <= |s|
    ensures n < |s| ==> s[n] == sep
    ensures forall i :: 0 <= i < n ==> s[i] != sep
  {
    if s == [] || s[0] == sep then 0 else 1 + IndexOf(s[1..], sep)
  }

  lemma IndexOfConcat(s: Bytes, sep: Byte, t: Bytes)
    requires forall i :: 0 <= i < |s| ==> s[i] != sep
    ensures IndexOf(s + [sep] + t, sep) == |s|
  {
    var u := s + [sep] + t;
    assert u[|s|] == sep;
    assert forall i :: 0 <= i < |s| ==> u[i] == s[i];
    var n := IndexOf(u, sep);
    assert n <= |s|;
    assert n < |u|;
    assert n == |s|;
  }

  function Split(s: Bytes, sep: Byte): (parts: Option<(Bytes, Bytes)>)
    ensures parts.Some? ==> s == parts.value.0 + [sep] + parts.value.1
  {
    var i := IndexOf(s, sep);
    if i == |s| then None else Some((s[..i], s[i + 1..]))
  }

  lemma SplitJoin(s: Bytes, sep: Byte, t: Bytes)
    requires forall i :: 0 <= i < |s| ==> s[i] != sep
    ensures Split(s + [sep] + t, sep) == Some((s, t))
  {
    var u := s + [sep] + t;
    IndexOfConcat(s, sep, t);
    assert u[..|s|] == s && u[|s| + 1..] == t;
  }

  // ---------- fields ----------

  function HexByte(b: Byte): (s: Bytes) {
    [97 + b / 16, 97 + b % 16]
  }

  function Hex(s: Bytes): (r: Bytes)
    ensures forall i :: 0 <= i < |r| ==> 97 <= r[i] <= 112
  {
    if s == [] then [] else HexByte(s[0]) + Hex(s[1..])
  }

  function Unhex(s: Bytes): (r: Option<Bytes>) {
    if s == [] then Some([])
    else if |s| == 1 || !(97 <= s[0] <= 112 && 97 <= s[1] <= 112) then None
    else
      match Unhex(s[2..])
      case Some(rest) => Some([16 * (s[0] - 97) + (s[1] - 97)] + rest)
      case None => None
  }

  lemma {:induction false} HexRoundTrip(s: Bytes)
    ensures Unhex(Hex(s)) == Some(s)
  {
    if s != [] {
      HexRoundTrip(s[1..]);
      var h := Hex(s);
      assert h[2..] == Hex(s[1..]);
      assert s == [s[0]] + s[1..];
    }
  }

  /** The fields, separated by commas. */
  function Join(fields: seq<Bytes>): (s: Bytes)
    requires fields != []
    ensures (forall f :: f in fields ==> IsPlain(f)) ==> IsPlain(s)
  {
    assert fields[0] in fields;
    if |fields| == 1 then fields[0]
    else
      assert forall f :: f in fields[1..] ==> f in fields;
      fields[0] + [COMMA] + Join(fields[1..])
  }

  /** Exactly `n` fields, none when there are fewer separators. */
  function Cut(s: Bytes, n: nat): (fields: Option<seq<Bytes>>)
    requires n > 0
    ensures fields.Some? ==> |fields.value| == n
  {
    if n == 1 then Some([s])
    else
      match Split(s, COMMA)
      case None => None
      case Some((first, rest)) =>
        match Cut(rest, n - 1)
        case None => None
        case Some(others) => Some([first] + others)
  }

  predicate NoComma(s: Bytes) {
    forall i :: 0 <= i < |s| ==> s[i] != COMMA
  }

  lemma {:induction false} CutJoin(fields: seq<Bytes>)
    requires fields != [] && forall f :: f in fields ==> NoComma(f)
    ensures Cut(Join(fields), |fields|) == Some(fields)
    decreases |fields|
  {
    hide Cut, NoComma;
    assert fields[0] in fields;
    if |fields| == 1 {
      assert fields == [fields[0]];
      CutOne(fields[0]);
    } else {
      CutJoin(fields[1..]);
      CutFirst(fields[0], Join(fields[1..]), |fields|);
      assert fields == [fields[0]] + fields[1..];
    }
  }

  lemma CutOne(s: Bytes)
    ensures Cut(s, 1) == Some([s])
  {
  }

  lemma CutFirst(first: Bytes, rest: Bytes, n: nat)
    requires n > 1 && NoComma(first) && Cut(rest, n - 1).Some?
    ensures Cut(first + [COMMA] + rest, n) == Some([first] + Cut(rest, n - 1).value)
  {
    SplitJoin(first, COMMA, rest);
  }

  // ---------- tick <-> body (tick_to_dict, tick_from_dict) ----------

  function TickFields(tick: TradeTick): (fields: seq<Bytes>)
    ensures |fields| == 6 && forall f :: f in fields ==> IsPlain(f) && NoComma(f)
  {
    [Hex(tick.instId), PrintInt(tick.ts), Hex(tick.price), Hex(tick.size), Hex(tick.side), Hex(tick.tradeId)]
  }

  function TickToBody(tick: TradeTick): (body: Bytes)
    ensures IsPlain(body)
  {
    Join(TickFields(tick))
  }

  /** None when a required field is missing or malformed. */
  function TickFromBody(body: Bytes): (tick: Option<TradeTick>) {
    match Cut(body, 6)
    case None => None
    case Some(f) =>
      match (Unhex(f[0]), ParseInt(f[1]), Unhex(f[2]), Unhex(f[3]), Unhex(f[4]), Unhex(f[5]))
      case (Some(instId), Some(ts), Some(price), Some(size), Some(side), Some(tradeId)) =>
        Some(TradeTick(instId, ts, price, size, side, tradeId))
      case _ => None
  }

  lemma TickRoundTrip(tick: TradeTick)
    ensures TickFromBody(TickToBody(tick)) == Some(tick)
  {
    hide Hex, PrintInt, Unhex, ParseInt, Join, Cut;
    CutJoin(TickFields(tick));
    HexRoundTrip(tick.instId);
    IntRoundTrip(tick.ts);
    HexRoundTrip(tick.price);
    HexRoundTrip(tick.size);
    HexRoundTrip(tick.side);
    HexRoundTrip(tick.tradeId);
  }

  // ---------- object <-> text (json.dumps, json.loads) ----------

  function Dump(obj: RecordObject): (s: Bytes) {
    [OPEN_BRACE] + PrintInt(obj.seqNo) + [COLON] + obj.body + [CLOSE_BRACE]
  }

  function Load(s: Bytes): (obj: Option<RecordObject>) {
    if |s| < 2 || s[0] != OPEN_BRACE || s[|s| - 1] != CLOSE_BRACE then None
    else
      var inner := s[1..|s| - 1];
      if !IsPlain(inner) then None
      else
        match Split(inner, COLON)
        case None => None
        case Some((number, body)) =>
          match ParseInt(number)
          case Some(n) =>
            assert forall i :: 0 <= i < |body| ==> body[i] == inner[|number| + 1 + i];
            Some(RecordObject(n, body))
          case None => None
  }

  lemma DumpShape(obj: RecordObject)
    ensures var s := Dump(obj);
      && |s| >= 2 && s[0] == OPEN_BRACE && s[|s| - 1] == CLOSE_BRACE && IsPlain(s[1..|s| - 1])
      && !HasNewline(s)
      && forall i :: 0 < i < |s| ==> s[i] != OPEN_BRACE
  {
    var s, num := Dump(obj), PrintInt(obj.seqNo);
    assert s[1..|s| - 1] == num + [COLON] + obj.body;
    assert forall i :: 0 < i < |s| - 1 ==> s[i] == s[1..|s| - 1][i - 1];
  }

  lemma DumpRoundTrip(obj: RecordObject)
    ensures Load(Dump(obj)) == Some(obj)
  {
    DumpShape(obj);
    var s, num := Dump(obj), PrintInt(obj.seqNo);
    var inner := s[1..|s| - 1];
    assert inner == num + [COLON] + obj.body;
    SplitJoin(num, COLON, obj.body);
    IntRoundTrip(obj.seqNo);
  }

  /** A text with a brace strictly inside never loads. */
  lemma InnerBraceDoesNotLoad(s: Bytes, k: nat)
    requires 0 < k < |s| - 1 && s[k] == OPEN_BRACE
    ensures Load(s) == None
  {
    assert s[1..|s| - 1][k - 1] == OPEN_BRACE;
  }
}
