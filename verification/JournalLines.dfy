/**
 What the bytes of a journal mean: the complete lines of a file, classified, and the records a
 consumer standing at some next seq is due. Everything else in the project (index, reader,
 compactor, writer) is specified in terms of `Kinds` and `Deliver`.
 */
module JournalLines {
  import opened Bytes
  import opened TickCodec

  /** A complete line: blank, without a usable seq, or an object that carries a seq. */
  datatype LineKind =
    | Blank
    | Garbage(text: Bytes)
    | Loaded(obj: RecordObject, tick: Option<TradeTick>, text: Bytes)

  datatype JournalRecord = JournalRecord(seqNo: int, tick: TradeTick)

  function Classify(line: Bytes): (k: LineKind) {
    var text := Strip(line);
    if text == [] then Blank
    else
      match Load(text)
      case Some(obj) => Loaded(obj, TickFromBody(obj.body), text)
      case None => Garbage(text)
  }

  /** The complete lines of `s`; a torn tip is not a line yet. */
  function Lines(s: Bytes): (ls: seq<Bytes>)
    decreases |s|
  {
    if HasLine(s) then [s[..LineLen(s)]] + Lines(s[LineLen(s)..]) else []
  }

  function Map<A, B>(f: A -> B, xs: seq<A>): (ys: seq<B>)
    ensures |ys| == |xs| && forall i :: 0 <= i < |xs| ==> ys[i] == f(xs[i])
  {
    seq(|xs|, i requires 0 <= i < |xs| => f(xs[i]))
  }

  /** The classified complete lines of `s`. */
  function Kinds(s: Bytes): (ks: seq<LineKind>) {
    Map(Classify, Lines(s))
  }

  function RecordOf(k: LineKind): (r: Option<JournalRecord>) {
    if k.Loaded? && k.tick.Some? then Some(JournalRecord(k.obj.seqNo, k.tick.value)) else None
  }

  /** A complete, non-blank line the reader cannot turn into a record. */
  predicate Rejected(k: LineKind) {
    !k.Blank? && RecordOf(k).None?
  }

  function Records(ks: seq<LineKind>): (rs: seq<JournalRecord>) {
    if ks == [] then []
    else
      match RecordOf(ks[0])
      case Some(r) => [r] + Records(ks[1..])
      case None => Records(ks[1..])
  }

  function CountRejected(ks: seq<LineKind>): (n: nat) {
    if ks == [] then 0 else (if Rejected(ks[0]) then 1 else 0) + CountRejected(ks[1..])
  }

  function CountBlank(ks: seq<LineKind>): (n: nat) {
    if ks == [] then 0 else (if ks[0].Blank? then 1 else 0) + CountBlank(ks[1..])
  }

  /** The records a consumer at `next` takes from `ks`, moving `next` past each one it takes. */
  function Deliver(ks: seq<LineKind>, next: int): (rs: seq<JournalRecord>) {
    if ks == [] then []
    else
      match RecordOf(ks[0])
      case Some(r) => if r.seqNo >= next then [r] + Deliver(ks[1..], r.seqNo + 1) else Deliver(ks[1..], next)
      case None => Deliver(ks[1..], next)
  }

  function NextAfter(ks: seq<LineKind>, next: int): (n: int) {
    if ks == [] then next
    else
      match RecordOf(ks[0])
      case Some(r) => NextAfter(ks[1..], if r.seqNo >= next then r.seqNo + 1 else next)
      case None => NextAfter(ks[1..], next)
  }

  /** Records with seq at least `s`, in file order. */
  function From(rs: seq<JournalRecord>, s: int): (r: seq<JournalRecord>) {
    if rs == [] then []
    else if rs[0].seqNo >= s then [rs[0]] + From(rs[1..], s)
    else From(rs[1..], s)
  }

  /** Every line that carries a seq carries one below `s`. */
  predicate AllBelow(ks: seq<LineKind>, s: int) {
    forall i :: 0 <= i < |ks| && ks[i].Loaded? ==> ks[i].obj.seqNo < s
  }

  predicate AllAtLeast(ks: seq<LineKind>, s: int) {
    forall i :: 0 <= i < |ks| && ks[i].Loaded? ==> ks[i].obj.seqNo >= s
  }

  /** A well-formed journal: the seqs of its lines strictly increase; other lines may be anywhere. */
  predicate Increasing(ks: seq<LineKind>) {
    forall i, j :: 0 <= i < j < |ks| && ks[i].Loaded? && ks[j].Loaded? ==> ks[i].obj.seqNo < ks[j].obj.seqNo
  }

  predicate StrictlyIncreasing(rs: seq<JournalRecord>) {
    forall i, j :: 0 <= i < j < |rs| ==> rs[i].seqNo < rs[j].seqNo
  }

  // ---------- lines of a concatenation ----------

  lemma TerminatedHasLine(s: Bytes)
    requires Terminated(s) && s != []
    ensures HasLine(s)
  {
    HasLineIffNewline(s);
    assert s[|s| - 1] == NEWLINE;
  }

  lemma TerminatedSuffix(s: Bytes, i: nat)
    requires Terminated(s) && i <= |s|
    ensures Terminated(s[i..])
  {
    if i < |s| {
      assert s[i..][|s[i..]| - 1] == s[|s| - 1];
    }
  }

  /** One complete line and nothing else. */
  predicate IsLine(line: Bytes) {
    Ended(line) && forall i :: 0 <= i < |line| - 1 ==> line[i] != NEWLINE
  }

  lemma FirstLine(s: Bytes) returns (line: Bytes, rest: Bytes)
    requires HasLine(s)
    ensures IsLine(line) && s == line + rest && |line| == LineLen(s)
    ensures Terminated(s) ==> Terminated(rest)
  {
    line, rest := s[..LineLen(s)], s[LineLen(s)..];
  }

  lemma LineLenCut(line: Bytes, rest: Bytes)
    requires IsLine(line)
    ensures HasLine(line + rest) && LineLen(line + rest) == |line|
    ensures (line + rest)[..|line|] == line && (line + rest)[|line|..] == rest
  {
    assert forall i :: 0 <= i < |line| ==> (line + rest)[i] == line[i];
    LineLenUnique(line + rest, |line|);
  }

  lemma LinesCut(line: Bytes, rest: Bytes)
    requires IsLine(line)
    ensures Lines(line + rest) == [line] + Lines(rest)
  {
    LineLenCut(line, rest);
  }

  lemma {:induction false} LinesConcat(a: Bytes, b: Bytes)
    requires Terminated(a)
    ensures Lines(a + b) == Lines(a) + Lines(b)
    decreases |a|
  {
    if a == [] {
      assert a + b == b;
    } else {
      TerminatedHasLine(a);
      var line, rest := FirstLine(a);
      LinesConcat(rest, b);
      LinesCut(line, rest);
      LinesCut(line, rest + b);
      Associative(line, rest, b);
      Associative([line], Lines(rest), Lines(b));
    }
  }

  lemma Associative<T>(a: seq<T>, b: seq<T>, c: seq<T>)
    ensures a + (b + c) == (a + b) + c
  {
  }

  lemma KindsConcat(a: Bytes, b: Bytes)
    requires Terminated(a)
    ensures Kinds(a + b) == Kinds(a) + Kinds(b)
  {
    LinesConcat(a, b);
  }

  lemma KindsCut(line: Bytes, rest: Bytes)
    requires IsLine(line)
    ensures Kinds(line + rest) == [Classify(line)] + Kinds(rest)
  {
    LinesCut(line, rest);
  }

  lemma KindsTorn(s: Bytes)
    requires !HasNewline(s)
    ensures Kinds(s) == []
  {
    HasLineIffNewline(s);
  }

  /** Only the complete part of a file has a meaning. */
  lemma KindsOfBody(s: Bytes)
    ensures Kinds(s[..BodyLen(s)]) == Kinds(s)
  {
    var n := BodyLen(s);
    assert s == s[..n] + s[n..];
    KindsConcat(s[..n], s[n..]);
    KindsTorn(s[n..]);
  }

  lemma KindsSingle(line: Bytes)
    requires !HasNewline(line)
    ensures Kinds(line + [NEWLINE]) == [Classify(line + [NEWLINE])]
  {
    var l := line + [NEWLINE];
    assert forall i :: 0 <= i < |line| ==> l[i] == line[i];
    KindsCut(l, []);
    assert l + [] == l;
    assert Lines([]) == [];
  }

  // ---------- what a line decodes to ----------

  lemma ClassifyDump(obj: RecordObject)
    ensures Classify(Dump(obj) + [NEWLINE]) == Loaded(obj, TickFromBody(obj.body), Dump(obj))
  {
    DumpShape(obj);
    DumpRoundTrip(obj);
    var s := Dump(obj);
    var line := s + [NEWLINE];
    assert LStrip(line) == line;
    assert line[..|line| - 1] == s;
    assert RStrip(line) == RStrip(s) == s;
  }

  /**
   Any line at all: blank exactly when all its bytes are, and otherwise it carries its text without the blank bytes
   at both ends.
   */
  lemma LineCarriesItsText(line: Bytes) returns (i: nat, j: nat)
    ensures Classify(line).Blank? <==> AllWhite(line)
    ensures i <= j <= |line| && AllWhite(line[..i]) && AllWhite(line[j..])
    ensures !Classify(line).Blank? ==>
      Classify(line).text == line[i..j] != [] && !AllWhite([line[i]]) && !AllWhite([line[j - 1]])
  {
    hide Strip, AllWhite, Load, TickFromBody;
    i, j := StripIsTrim(line);
  }

  function Joined(ls: seq<Bytes>): (s: Bytes) {
    if ls == [] then [] else ls[0] + Joined(ls[1..])
  }

  /** The lines are the complete part of the text, cut behind each newline. */
  lemma {:induction false} LinesPartition(s: Bytes)
    ensures Joined(Lines(s)) == s[..BodyLen(s)]
    ensures forall l :: l in Lines(s) ==> IsLine(l)
    decreases |s|
  {
    hide IsLine, BodyLen;
    if HasLine(s) {
      var line, rest := FirstLine(s);
      LinesPartition(rest);
      LinesCut(line, rest);
      BodyLenStep(s);
      assert Lines(s)[1..] == Lines(rest);
      assert s[..|line| + BodyLen(rest)] == line + rest[..BodyLen(rest)];
    } else {
      BodyLenNoLine(s);
    }
  }

  function RecordLine(r: JournalRecord): (line: Bytes) {
    Dump(RecordObject(r.seqNo, TickToBody(r.tick))) + [NEWLINE]
  }

  /** Reading back a written record yields that record. */
  lemma RecordLineRoundTrip(r: JournalRecord)
    ensures Terminated(RecordLine(r)) && |RecordLine(r)| > 0
    ensures |Kinds(RecordLine(r))| == 1 && Kinds(RecordLine(r))[0].Loaded?
    ensures Kinds(RecordLine(r))[0].obj.seqNo == r.seqNo
    ensures RecordOf(Kinds(RecordLine(r))[0]) == Some(r)
  {
    var obj := RecordObject(r.seqNo, TickToBody(r.tick));
    DumpShape(obj);
    ClassifyDump(obj);
    KindsSingle(Dump(obj));
    TickRoundTrip(r.tick);
  }

  /** A record appended after a torn, non-blank tip merges with it into a line that carries no seq. */
  lemma MergedLineIsGarbage(tip: Bytes, obj: RecordObject)
    requires !IsBlank(tip) && !HasNewline(tip)
    ensures !HasNewline(tip + Dump(obj))
    ensures Classify(tip + Dump(obj) + [NEWLINE]).Garbage?
  {
    DumpShape(obj);
    var s := Dump(obj);
    var t := LStrip(tip);
    if t == [] { BlankLStrip(tip); }
    var cut := LStripCuts(tip);
    LStripConcat(tip, s + [NEWLINE]);
    assert tip + s + [NEWLINE] == tip + (s + [NEWLINE]);
    var u := t + (s + [NEWLINE]);
    assert LStrip(tip + s + [NEWLINE]) == u;
    var v := t + s;
    assert u[..|u| - 1] == v;
    assert v[|v| - 1] == s[|s| - 1] == CLOSE_BRACE;
    assert RStrip(u) == RStrip(v) == v;
    assert v[|t|] == OPEN_BRACE;
    InnerBraceDoesNotLoad(v, |t|);
  }

  /** What is left of a record's line when reading starts inside it never decodes. */
  lemma RemnantDoesNotLoad(obj: RecordObject, i: nat)
    requires 0 < i <= |Dump(obj)|
    ensures !Classify((Dump(obj) + [NEWLINE])[i..]).Loaded?
  {
    DumpShape(obj);
    var s := (Dump(obj) + [NEWLINE])[i..];
    assert forall j :: 0 <= j < |s| ==> s[j] != OPEN_BRACE by {
      forall j | 0 <= j < |s| ensures s[j] != OPEN_BRACE {
        assert s[j] == (Dump(obj) + [NEWLINE])[i + j];
      }
    }
    var from, to := StripIsTrim(s);
    assert from < to ==> Strip(s)[0] == s[from];
  }

  // ---------- delivery ----------

  /** Where one line leaves the next seq. */
  function Step(k: LineKind, next: int): (n: int) {
    match RecordOf(k)
    case Some(r) => if r.seqNo >= next then r.seqNo + 1 else next
    case None => next
  }

  lemma DeliverStep(ks: seq<LineKind>, next: int)
    requires ks != []
    ensures NextAfter(ks, next) == NextAfter(ks[1..], Step(ks[0], next))
    ensures Deliver(ks, next) ==
            (if RecordOf(ks[0]).Some? && RecordOf(ks[0]).value.seqNo >= next then [RecordOf(ks[0]).value] else [])
            + Deliver(ks[1..], Step(ks[0], next))
  {
  }

  lemma {:induction false} DeliverConcat(a: seq<LineKind>, b: seq<LineKind>, next: int)
    ensures Deliver(a + b, next) == Deliver(a, next) + Deliver(b, NextAfter(a, next))
    ensures NextAfter(a + b, next) == NextAfter(b, NextAfter(a, next))
  {
    if a == [] {
      assert a + b == b;
    } else {
      assert (a + b)[1..] == a[1..] + b;
      DeliverStep(a, next);
      DeliverStep(a + b, next);
      DeliverConcat(a[1..], b, Step(a[0], next));
    }
  }

  lemma {:induction false} DeliverNext(ks: seq<LineKind>, next: int)
    ensures NextAfter(ks, next) >= next
    ensures Deliver(ks, next) == [] ==> NextAfter(ks, next) == next
    ensures var rs := Deliver(ks, next); rs != [] ==> NextAfter(ks, next) == rs[|rs| - 1].seqNo + 1
  {
    if ks != [] {
      DeliverStep(ks, next);
      DeliverNext(ks[1..], Step(ks[0], next));
    }
  }

  lemma {:induction false} DeliverAbove(ks: seq<LineKind>, next: int)
    ensures forall i :: 0 <= i < |Deliver(ks, next)| ==> next <= Deliver(ks, next)[i].seqNo
  {
    if ks != [] {
      DeliverStep(ks, next);
      DeliverAbove(ks[1..], Step(ks[0], next));
    }
  }

  /** Whatever the lines are, a consumer never takes a seq twice or out of order. */
  lemma {:induction false} DeliverIncreasing(ks: seq<LineKind>, next: int)
    ensures StrictlyIncreasing(Deliver(ks, next))
  {
    if ks != [] {
      var next' := Step(ks[0], next);
      DeliverStep(ks, next);
      DeliverIncreasing(ks[1..], next');
      DeliverAbove(ks[1..], next');
    }
  }

  lemma {:induction false} DeliverBelow(ks: seq<LineKind>, next: int)
    requires AllBelow(ks, next)
    ensures Deliver(ks, next) == [] && NextAfter(ks, next) == next
  {
    if ks != [] {
      assert RecordOf(ks[0]).Some? ==> RecordOf(ks[0]).value.seqNo == ks[0].obj.seqNo;
      assert AllBelow(ks[1..], next);
      DeliverBelow(ks[1..], next);
    }
  }

  /** On a well-formed journal the records due are exactly those with seq >= next, once each. */
  lemma {:induction false} DeliverIsFilter(ks: seq<LineKind>, next: int)
    requires Increasing(ks)
    ensures Deliver(ks, next) == From(Records(ks), next)
  {
    if ks != [] {
      var tail := ks[1..];
      assert Increasing(tail);
      match RecordOf(ks[0])
      case None => DeliverIsFilter(tail, next);
      case Some(r) =>
        assert ks == [ks[0]] + tail;
        if r.seqNo >= next {
          DeliverIsFilter(tail, r.seqNo + 1);
          assert AllAtLeast(tail, r.seqNo + 1);
          FromAll(tail, r.seqNo + 1, next);
        } else {
          DeliverIsFilter(tail, next);
        }
        assert Records(ks)[1..] == Records(tail);
    }
  }

  lemma {:induction false} FromAll(ks: seq<LineKind>, low: int, s: int)
    requires AllAtLeast(ks, low) && s <= low
    ensures From(Records(ks), s) == Records(ks) && From(Records(ks), low) == Records(ks)
  {
    if ks != [] {
      assert AllAtLeast(ks[1..], low);
      FromAll(ks[1..], low, s);
      match RecordOf(ks[0])
      case None =>
      case Some(r) => assert Records(ks)[1..] == Records(ks[1..]);
    }
  }

  lemma {:induction false} AllFrom(rs: seq<JournalRecord>, s: int)
    requires forall r :: r in rs ==> r.seqNo >= s
    ensures From(rs, s) == rs
  {
    if rs != [] {
      assert rs[0] in rs;
      AllFrom(rs[1..], s);
    }
  }

  lemma {:induction false} RecordsConcat(a: seq<LineKind>, b: seq<LineKind>)
    ensures Records(a + b) == Records(a) + Records(b)
    ensures CountRejected(a + b) == CountRejected(a) + CountRejected(b)
    ensures CountBlank(a + b) == CountBlank(a) + CountBlank(b)
  {
    if a == [] {
      assert a + b == b;
    } else {
      assert (a + b)[1..] == a[1..] + b;
      RecordsConcat(a[1..], b);
    }
  }

  lemma {:induction false} FromConcat(a: seq<JournalRecord>, b: seq<JournalRecord>, s: int)
    ensures From(a + b, s) == From(a, s) + From(b, s)
  {
    if a == [] {
      assert a + b == b;
    } else {
      assert (a + b)[1..] == a[1..] + b;
      FromConcat(a[1..], b, s);
    }
  }
}
