/** Byte strings, and the two ways the journal code cuts them: into lines and by stripping. */
module Bytes {

  type Byte = b: int | 0 <= b < 256

  type Bytes = seq<Byte>

  const NEWLINE: Byte := 10

  const OPEN_BRACE: Byte := 123

  const CLOSE_BRACE: Byte := 125

  datatype Option<+T> = None | Some(value: T)

  predicate IsSpace(b: Byte) {
    b == 32 || 9 <= b <= 13
  }

  predicate HasNewline(s: Bytes) {
    exists i :: 0 <= i < |s| && s[i] == NEWLINE
  }

  /** A line as `readline` returns it ends in a newline unless it is the torn tip of the file. */
  predicate Ended(line: Bytes) {
    line != [] && line[|line| - 1] == NEWLINE
  }

  /** A prefix made of complete lines only; the byte after it is the beginning of a line. */
  predicate Terminated(s: Bytes) {
    s == [] || s[|s| - 1] == NEWLINE
  }

  lemma TerminatedConcat(a: Bytes, b: Bytes)
    requires Terminated(a) && Terminated(b)
    ensures Terminated(a + b)
  {
  }

  lemma DropDrop(s: Bytes, i: nat, j: nat)
    requires i + j <= |s|
    ensures s[i..][j..] == s[i + j..]
  {
  }

  /** The end of the line that contains byte `i`. */
  function LineEnd(s: Bytes, i: nat): (n: nat)
    requires i <= |s|
    ensures i <= n <= |s|
    ensures i < |s| ==> i < n
    ensures forall k :: i <= k < n - 1 ==> s[k] != NEWLINE
    ensures n < |s| ==> n > i && s[n - 1] == NEWLINE
    decreases |s| - i
  {
    if i == |s| then i else if s[i] == NEWLINE then i + 1 else LineEnd(s, i + 1)
  }

  /** How many bytes `readline` consumes at the head of `s`. */
  function LineLen(s: Bytes): (n: nat)
    ensures n <= |s|
    ensures s != [] ==> n >= 1
    ensures forall i :: 0 <= i < n - 1 ==> s[i] != NEWLINE
    ensures n < |s| ==> n >= 1 && s[n - 1] == NEWLINE
  {
    LineEnd(s, 0)
  }

  /** The head of `s` is a complete line, so `readline` returns one that ends in a newline. */
  predicate HasLine(s: Bytes) {
    var n := LineLen(s);
    n > 0 && s[n - 1] == NEWLINE
  }

  /** The four facts in `LineLen`'s contract leave room for one value only. */
  lemma LineLenUnique(s: Bytes, n: nat)
    requires 1 <= n <= |s|
    requires forall i :: 0 <= i < n - 1 ==> s[i] != NEWLINE
    requires s[n - 1] == NEWLINE || n == |s|
    ensures LineLen(s) == n
  {
    var m := LineLen(s);
    assert s[m - 1] == NEWLINE || m == |s|;
  }

  lemma HasLineIffNewline(s: Bytes)
    ensures HasLine(s) <==> HasNewline(s)
    ensures !HasLine(s) ==> LineLen(s) == |s|
  {
    var n := LineLen(s);
    if s != [] && s[n - 1] != NEWLINE {
      assert n == |s|;
    }
  }

  lemma LineLenConcat(s: Bytes, t: Bytes)
    requires HasLine(s)
    ensures LineLen(s + t) == LineLen(s) && HasLine(s + t)
  {
    var n := LineLen(s);
    assert forall i :: 0 <= i < n ==> (s + t)[i] == s[i];
    LineLenUnique(s + t, n);
  }

  lemma LineLenSingle(line: Bytes)
    requires !HasNewline(line)
    ensures LineLen(line + [NEWLINE]) == |line| + 1 && HasLine(line + [NEWLINE])
  {
    var l := line + [NEWLINE];
    assert forall i :: 0 <= i < |line| ==> l[i] == line[i];
    LineLenUnique(l, |line| + 1);
  }

  /** The end of the last complete line within the first `n` bytes. */
  function BodyEnd(s: Bytes, n: nat): (m: nat)
    requires n <= |s|
    ensures m <= n
    ensures m == 0 || s[m - 1] == NEWLINE
    ensures forall k :: m <= k < n ==> s[k] != NEWLINE
  {
    if n == 0 || s[n - 1] == NEWLINE then n else BodyEnd(s, n - 1)
  }

  /** Length of the longest prefix that consists of complete lines. */
  function BodyLen(s: Bytes): (n: nat)
    ensures n <= |s|
    ensures Terminated(s[..n])
    ensures !HasNewline(s[n..])
  {
    BodyEnd(s, |s|)
  }

  lemma BodyLenUnique(s: Bytes, n: nat)
    requires n <= |s|
    requires Terminated(s[..n])
    requires !HasNewline(s[n..])
    ensures BodyLen(s) == n
  {
    var m := BodyLen(s);
    assert forall i :: m <= i < |s| ==> s[i] == s[m..][i - m];
    assert forall i :: n <= i < |s| ==> s[i] == s[n..][i - n];
    assert m > 0 ==> s[m - 1] == s[..m][m - 1];
    assert n > 0 ==> s[n - 1] == s[..n][n - 1];
  }

  /** Reading one complete line moves the end of the complete part along with it. */
  lemma BodyLenStep(s: Bytes)
    requires HasLine(s)
    ensures BodyLen(s) == LineLen(s) + BodyLen(s[LineLen(s)..])
  {
    var n := LineLen(s);
    var m := BodyLen(s[n..]);
    assert s[..n + m] == s[..n] + s[n..][..m];
    assert s[n + m..] == s[n..][m..];
    BodyLenUnique(s, n + m);
  }

  lemma BodyLenNoLine(s: Bytes)
    requires !HasLine(s)
    ensures BodyLen(s) == 0
  {
    HasLineIffNewline(s);
    assert s[..0] == [];
    assert s[0..] == s;
    BodyLenUnique(s, 0);
  }

  function LStrip(s: Bytes): (r: Bytes) {
    if s != [] && IsSpace(s[0]) then LStrip(s[1..]) else s
  }

  function RStrip(s: Bytes): (r: Bytes) {
    if s != [] && IsSpace(s[|s| - 1]) then RStrip(s[..|s| - 1]) else s
  }

  function Strip(s: Bytes): (r: Bytes) {
    RStrip(LStrip(s))
  }

  predicate IsBlank(s: Bytes) {
    Strip(s) == []
  }

  /** The bytes that count as blank, as `bytes.strip` has them. */
  predicate AllWhite(s: Bytes) {
    forall i :: 0 <= i < |s| ==> s[i] == 9 || s[i] == 10 || s[i] == 11 || s[i] == 12 || s[i] == 13 || s[i] == 32
  }

  /** Stripping cuts the blank bytes off both ends, all of them, and nothing else. */
  lemma StripIsTrim(s: Bytes) returns (i: nat, j: nat)
    ensures i <= j <= |s| && Strip(s) == s[i..j]
    ensures AllWhite(s[..i]) && AllWhite(s[j..])
    ensures i < j ==> !AllWhite([s[i]]) && !AllWhite([s[j - 1]])
    ensures Strip(s) == [] <==> AllWhite(s)
  {
    i := LStripCuts(s);
    var left := s[i..];
    var k := RStripCuts(left);
    j := i + k;
    assert left[..k] == s[i..j] && left[k..] == s[j..];
    if i == j {
      assert s == s[..i] + s[j..];
    }
  }

  lemma {:induction false} LStripCuts(s: Bytes) returns (i: nat)
    ensures i <= |s| && LStrip(s) == s[i..] && AllWhite(s[..i])
    ensures i < |s| ==> !AllWhite([s[i]])
  {
    if s != [] && IsSpace(s[0]) {
      var k := LStripCuts(s[1..]);
      i := k + 1;
      assert s[1..][k..] == s[i..] && s[..i] == [s[0]] + s[1..][..k];
    } else {
      i := 0;
      assert s[0..] == s && (s != [] ==> [s[0]][0] == s[0]);
    }
  }

  lemma {:induction false} RStripCuts(s: Bytes) returns (j: nat)
    ensures j <= |s| && RStrip(s) == s[..j] && AllWhite(s[j..])
    ensures j > 0 ==> !AllWhite([s[j - 1]])
  {
    var n := |s|;
    if s != [] && IsSpace(s[n - 1]) {
      j := RStripCuts(s[..n - 1]);
      assert s[..n - 1][..j] == s[..j] && s[j..] == s[..n - 1][j..] + [s[n - 1]];
    } else {
      j := n;
      assert s[..n] == s && (s != [] ==> [s[n - 1]][0] == s[n - 1]);
    }
  }

  /** Left-stripping a concatenation whose left part is not all spaces. */
  lemma {:induction false} LStripConcat(s: Bytes, t: Bytes)
    requires LStrip(s) != []
    ensures LStrip(s + t) == LStrip(s) + t
  {
    if IsSpace(s[0]) {
      assert (s + t)[1..] == s[1..] + t;
      LStripConcat(s[1..], t);
    } else {
      assert (s + t)[0] == s[0];
    }
  }

  lemma BlankLStrip(s: Bytes)
    requires LStrip(s) == []
    ensures IsBlank(s)
  {
  }

  lemma SameMap<K, V>(a: map<K, V>, b: map<K, V>)
    requires forall key :: key in a <==> key in b
    requires forall key :: key in a ==> a[key] == b[key]
    ensures a == b
  {
  }

  // ---------- upper case ----------

  function UpperByte(b: Byte): Byte {
    if 97 <= b <= 122 then b - 32 else b
  }

  predicate IsUpper(s: Bytes) {
    forall i :: 0 <= i < |s| ==> UpperByte(s[i]) == s[i]
  }

  function Upper(s: Bytes): (r: Bytes)
    ensures IsUpper(r)
  {
    seq(|s|, i requires 0 <= i < |s| => UpperByte(s[i]))
  }

  lemma UpperFixed(s: Bytes)
    requires IsUpper(s)
    ensures Upper(s) == s
  {
  }

  /** The same text but for the case of letters: `a` to `z` are 97 to 122, `A` to `Z` 65 to 90. */
  predicate SameButCase(a: Bytes, b: Bytes) {
    && |a| == |b|
    && forall i :: 0 <= i < |a| ==>
      || a[i] == b[i]
      || (97 <= a[i] <= 122 && b[i] == a[i] - 32)
      || (65 <= a[i] <= 90 && b[i] == a[i] + 32)
  }

  /** Upper case identifies texts that differ in case, and no others. */
  lemma UpperIgnoresCase(a: Bytes, b: Bytes)
    ensures Upper(a) == Upper(b) <==> SameButCase(a, b)
    ensures SameButCase(Upper(a), a)
    ensures forall i :: 0 <= i < |a| ==> !(97 <= Upper(a)[i] <= 122)
  {
    if Upper(a) == Upper(b) {
      assert |a| == |Upper(a)| == |b|;
      forall i | 0 <= i < |a|
        ensures || a[i] == b[i]
                || (97 <= a[i] <= 122 && b[i] == a[i] - 32)
                || (65 <= a[i] <= 90 && b[i] == a[i] + 32)
      {
        assert Upper(a)[i] == Upper(b)[i];
      }
    }
  }

  /** Upper case does not make or remove blank bytes, so it commutes with stripping. */
  lemma UpperStrip(s: Bytes)
    ensures Strip(Upper(s)) == Upper(Strip(s))
  {
    UpperLStrip(s);
    UpperRStrip(LStrip(s));
  }

  lemma {:induction false} UpperLStrip(s: Bytes)
    ensures LStrip(Upper(s)) == Upper(LStrip(s))
  {
    if s != [] {
      assert Upper(s)[1..] == Upper(s[1..]);
      UpperLStrip(s[1..]);
    }
  }

  lemma {:induction false} UpperRStrip(s: Bytes)
    ensures RStrip(Upper(s)) == Upper(RStrip(s))
  {
    if s != [] {
      assert Upper(s)[..|s| - 1] == Upper(s[..|s| - 1]);
      UpperRStrip(s[..|s| - 1]);
    }
  }
}
