/** The few string operations of the Go library that the gateway leans on. */
module Text {

  /** White space as Go's unicode package defines it. */
  predicate IsSpace(c: char) {
    var n := c as int;
    || 0x09 <= n <= 0x0D || n == 0x20 || n == 0x85 || n == 0xA0 || n == 0x1680
    || 0x2000 <= n <= 0x200A || n == 0x2028 || n == 0x2029 || n == 0x202F || n == 0x205F || n == 0x3000
  }

  function TrimLeft(s: string): string {
    if s != [] && IsSpace(s[0]) then TrimLeft(s[1..]) else s
  }

  function TrimRight(s: string): string {
    if s != [] && IsSpace(s[|s| - 1]) then TrimRight(s[..|s| - 1]) else s
  }

  function Trim(s: string): string {
    TrimRight(TrimLeft(s))
  }

  /** No white space at either end. */
  predicate Tight(s: string) {
    s == [] || (!IsSpace(s[0]) && !IsSpace(s[|s| - 1]))
  }

  lemma {:induction false} TrimLeftTight(s: string)
    ensures TrimLeft(s) == [] || !IsSpace(TrimLeft(s)[0])
  {
    if s != [] && IsSpace(s[0]) { TrimLeftTight(s[1..]); }
  }

  lemma {:induction false} TrimRightTight(s: string)
    requires s == [] || !IsSpace(s[0])
    ensures Tight(TrimRight(s))
  {
    if s != [] && IsSpace(s[|s| - 1]) { TrimRightTight(s[..|s| - 1]); }
  }

  lemma TrimIsTight(s: string)
    ensures Tight(Trim(s))
  {
    TrimLeftTight(s);
    TrimRightTight(TrimLeft(s));
  }

  lemma TrimOfTight(s: string)
    requires Tight(s)
    ensures Trim(s) == s
  {}

  /** Trimming twice is trimming once. */
  lemma TrimTwice(s: string)
    ensures Trim(Trim(s)) == Trim(s)
  {
    TrimIsTight(s);
    TrimOfTight(Trim(s));
  }

  lemma {:induction false} TrimLeftAppend(a: string, b: string)
    requires b == [] || !IsSpace(b[0])
    ensures TrimLeft(a + b) == TrimLeft(a) + b
  {
    if a != [] && IsSpace(a[0]) {
      TrimLeftAppend(a[1..], b);
      assert (a + b)[1..] == a[1..] + b;
    } else {
      assert a == [] ==> a + b == b;
    }
  }

  lemma {:induction false} TrimRightNonempty(s: string)
    requires s != [] && !IsSpace(s[0])
    ensures TrimRight(s) != []
  {
    if IsSpace(s[|s| - 1]) { TrimRightNonempty(s[..|s| - 1]); }
  }

  predicate HasPrefix(s: string, prefix: string) {
    prefix <= s
  }

  function TrimPrefix(s: string, prefix: string): string {
    if prefix <= s then s[|prefix|..] else s
  }

  // ----- searching

  predicate OccursAt(s: string, sub: string, i: int) {
    0 <= i <= |s| - |sub| && s[i..i + |sub|] == sub
  }

  function IndexFrom(s: string, sub: string, i: nat): (r: int)
    ensures r == -1 || (i <= r && OccursAt(s, sub, r))
    ensures forall j | i <= j && (r == -1 || j < r) :: !OccursAt(s, sub, j)
    decreases |s| - i
  {
    if i + |sub| > |s| then -1
    else if OccursAt(s, sub, i) then i
    else IndexFrom(s, sub, i + 1)
  }

  /** The first occurrence, or -1. */
  function IndexOf(s: string, sub: string): (r: int)
    ensures r == -1 || OccursAt(s, sub, r)
    ensures forall j | 0 <= j && (r == -1 || j < r) :: !OccursAt(s, sub, j)
  {
    IndexFrom(s, sub, 0)
  }

  /** An occurrence that starts inside `a` lies within `a + sub`, whatever follows. */
  lemma IndexInPrefix(a: string, sub: string, b: string)
    requires sub != ""
    ensures IndexOf(a + sub + b, sub) == IndexOf(a + sub, sub) >= 0
  {
    var short, long := a + sub, a + sub + b;
    assert OccursAt(short, sub, |a|);
    forall j | 0 <= j <= |a| ensures OccursAt(long, sub, j) <==> OccursAt(short, sub, j) {
      assert long[j..j + |sub|] == short[j..j + |sub|];
    }
  }

  // ----- case

  function FoldChar(c: char): char {
    if 'A' <= c <= 'Z' then c + ('a' - 'A') else c
  }

  function Fold(s: string): string {
    if s == [] then [] else [FoldChar(s[0])] + Fold(s[1..])
  }

  predicate EqualFold(s: string, t: string) {
    Fold(s) == Fold(t)
  }

  /** The same letter in upper and in lower case. */
  predicate CasePair(c: char, d: char) {
    ('A' <= c <= 'Z' && d as int == c as int + 32) || ('A' <= d <= 'Z' && c as int == d as int + 32)
  }

  lemma {:induction false} FoldAt(s: string)
    ensures |Fold(s)| == |s| && forall i | 0 <= i < |s| :: Fold(s)[i] == FoldChar(s[i])
  {
    if s != [] {
      FoldAt(s[1..]);
      assert forall i | 1 <= i < |s| :: s[i] == s[1..][i - 1] && Fold(s)[i] == Fold(s[1..])[i - 1];
    }
  }

  /** Equal up to the case of letters, and no further. */
  lemma EqualFoldMeans(s: string, t: string)
    ensures EqualFold(s, t) <==> |s| == |t| && forall i | 0 <= i < |s| :: s[i] == t[i] || CasePair(s[i], t[i])
  {
    FoldAt(s);
    FoldAt(t);
    if EqualFold(s, t) {
      forall i | 0 <= i < |s| ensures s[i] == t[i] || CasePair(s[i], t[i]) {
        assert Fold(s)[i] == Fold(t)[i];
      }
    }
  }
}
