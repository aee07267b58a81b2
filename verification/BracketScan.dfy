/** The bracket, string and escape automaton of the response scanner, and what it finds. */
module BracketScan {

  datatype Kind = Braces | Brackets {
    function Open(): char { if Braces? then '{' else '[' }
    function Close(): char { if Braces? then '}' else ']' }
  }

  predicate IsOpening(c: char) { c == '{' || c == '[' }

  function KindOf(c: char): Kind { if c == '{' then Braces else Brackets }

  // ---------- Reference definition: bracket balance outside string literals ----------

  /** What follows a string literal whose opening quote has just been read. */
  function AfterLiteral(s: string): (rest: string)
    ensures |rest| <= |s|
  {
    if s == [] then []
    else if s[0] == '"' then s[1..]
    else if s[0] == '\\' then (if |s| == 1 then [] else AfterLiteral(s[2..]))
    else AfterLiteral(s[1..])
  }

  /** The characters of s that lie outside every string literal, quotes dropped. */
  function Outside(s: string): string
    decreases |s|
  {
    if s == [] then []
    else if s[0] == '"' then Outside(AfterLiteral(s[1..]))
    else [s[0]] + Outside(s[1..])
  }

  function Occurrences(c: char, s: string): nat {
    if s == [] then 0 else (if s[0] == c then 1 else 0) + Occurrences(c, s[1..])
  }

  /** Opening minus closing brackets of one kind; brackets of the other kind are not counted. */
  function Balance(k: Kind, s: string): int {
    Occurrences(k.Open(), Outside(s)) - Occurrences(k.Close(), Outside(s))
  }

  /** s[..m] is the shortest non-empty prefix of s in which the brackets of kind k balance. */
  ghost predicate Closes(k: Kind, s: string, m: nat) {
    && 0 < m <= |s|
    && Balance(k, s[..m]) == 0
    && forall j :: 0 < j < m ==> Balance(k, s[..j]) != 0
  }

  ghost predicate NeverCloses(k: Kind, s: string) {
    forall j :: 0 < j <= |s| ==> Balance(k, s[..j]) != 0
  }

  // ---------- The automaton ----------

  datatype State = State(depth: int, inStr: bool, escape: bool)

  function At(depth: int): State { State(depth, false, false) }

  function Step(k: Kind, st: State, ch: char): State {
    if st.escape then st.(escape := false)
    else if ch == '\\' && st.inStr then st.(escape := true)
    else if ch == '"' then st.(inStr := !st.inStr)
    else if st.inStr then st
    else if ch == k.Open() then st.(depth := st.depth + 1)
    else if ch == k.Close() then st.(depth := st.depth - 1)
    else st
  }

  function Run(k: Kind, st: State, s: string): State
    decreases |s|
  {
    if s == [] then st else Run(k, Step(k, st, s[0]), s[1..])
  }

  lemma {:induction false} RunConcat(k: Kind, st: State, a: string, b: string)
    ensures Run(k, st, a + b) == Run(k, Run(k, st, a), b)
    decreases |a|
  {
    if a == [] {
      assert a + b == b;
    } else {
      assert (a + b)[1..] == a[1..] + b;
      RunConcat(k, Step(k, st, a[0]), a[1..], b);
    }
  }

  /** The part of s that the automaton, started in st, still reads outside a literal. */
  function Unread(st: State, s: string): string {
    if !st.inStr then s
    else if st.escape then (if s == [] then [] else AfterLiteral(s[1..]))
    else AfterLiteral(s)
  }

  /** The automaton's depth counts exactly the brackets outside string literals. */
  lemma {:induction false} DepthIsBalance(k: Kind, st: State, s: string)
    requires st.escape ==> st.inStr
    ensures Run(k, st, s).depth == st.depth + Balance(k, Unread(st, s))
    decreases |s|
  {
    if s != [] {
      var next := Step(k, st, s[0]);
      DepthIsBalance(k, next, s[1..]);
      if st.inStr && !st.escape && s[0] == '\\' && |s| > 1 {
        assert s[1..][1..] == s[2..];
      }
      if !st.inStr && s[0] != '"' {
        assert Outside(s) == [s[0]] + Outside(s[1..]);
      }
    }
  }

  /** Reading one more character is one more step, and its depth is the balance read so far. */
  lemma ReadOne(k: Kind, s: string, m: nat)
    requires m < |s|
    ensures Run(k, At(0), s[..m + 1]) == Step(k, Run(k, At(0), s[..m]), s[m])
    ensures Run(k, At(0), s[..m + 1]).depth == Balance(k, s[..m + 1])
  {
    assert s[..m + 1] == s[..m] + [s[m]];
    RunConcat(k, At(0), s[..m], [s[m]]);
    DepthIsBalance(k, At(0), s[..m + 1]);
  }

  // ---------- The segments cut out of a text ----------

  datatype Segment = Segment(start: nat, end: nat)

  /** The recursive extractor: the segments found from position i on. */
  ghost function Extract(raw: string, i: nat): seq<Segment>
    requires i <= |raw|
    decreases |raw| - i
  {
    if i == |raw| then []
    else if !IsOpening(raw[i]) then Extract(raw, i + 1)
    else if m: nat :| Closes(KindOf(raw[i]), raw[i..], m) then
      [Segment(i, i + m)] + Extract(raw, i + m)
    else []
  }

  lemma ClosesOnce(k: Kind, s: string, m: nat, m': nat)
    requires Closes(k, s, m) && Closes(k, s, m')
    ensures m == m'
  {}

  lemma ExtractClosed(raw: string, i: nat, m: nat)
    requires i < |raw| && IsOpening(raw[i]) && Closes(KindOf(raw[i]), raw[i..], m)
    ensures Extract(raw, i) == [Segment(i, i + m)] + Extract(raw, i + m)
  {
    forall m': nat | Closes(KindOf(raw[i]), raw[i..], m') ensures m' == m {
      ClosesOnce(KindOf(raw[i]), raw[i..], m, m');
    }
  }

  /** An opening bracket that never balances ends the scan. */
  lemma ExtractStuck(raw: string, i: nat)
    requires i < |raw| && IsOpening(raw[i]) && NeverCloses(KindOf(raw[i]), raw[i..])
    ensures Extract(raw, i) == []
  {}

  lemma {:induction false} ExtractSkips(raw: string, i: nat, j: nat)
    requires i <= j <= |raw| && forall p :: i <= p < j ==> !IsOpening(raw[p])
    ensures Extract(raw, i) == Extract(raw, j)
    decreases j - i
  {
    if i < j {
      ExtractSkips(raw, i + 1, j);
    }
  }

  // ---------- What the segments are ----------

  /** No opening bracket in raw[i..j]. */
  predicate Quiet(raw: string, i: nat, j: nat)
    requires i <= j <= |raw|
  {
    forall p :: i <= p < j ==> !IsOpening(raw[p])
  }

  /** The first opening bracket at or after i. */
  predicate FirstOpening(raw: string, i: nat, p: nat) {
    i <= p < |raw| && Quiet(raw, i, p) && IsOpening(raw[p])
  }

  /** The segment starts at the first bracket and is the shortest balanced text from there. */
  ghost predicate GoodSegment(raw: string, i: nat, seg: Segment) {
    && FirstOpening(raw, i, seg.start)
    && seg.start < seg.end <= |raw|
    && Closes(KindOf(raw[seg.start]), raw[seg.start..], seg.end - seg.start)
  }

  /** Either no bracket opens from i on, or the first one that does never balances. */
  ghost predicate Exhausted(raw: string, i: nat)
    requires i <= |raw|
  {
    forall p: nat :: FirstOpening(raw, i, p) ==> NeverCloses(KindOf(raw[p]), raw[p..])
  }

  /** Each segment is good counting from the end of the one before, and nothing is left. */
  ghost predicate IsScan(raw: string, i: nat, segs: seq<Segment>)
    requires i <= |raw|
    decreases |segs|
  {
    if segs == [] then Exhausted(raw, i)
    else GoodSegment(raw, i, segs[0]) && IsScan(raw, segs[0].end, segs[1..])
  }

  /** The extractor's result is the one and only list of segments that IsScan describes. */
  lemma {:induction false} ExtractIsTheScan(raw: string, i: nat, segs: seq<Segment>)
    requires i <= |raw|
    ensures segs == Extract(raw, i) <==> IsScan(raw, i, segs)
    decreases |raw| - i
  {
    if p: nat :| FirstOpening(raw, i, p) {
      var k := KindOf(raw[p]);
      ExtractSkips(raw, i, p);
      if m: nat :| Closes(k, raw[p..], m) {
        ExtractClosed(raw, p, m);
        if segs != [] {
          ExtractIsTheScan(raw, p + m, segs[1..]);
          if GoodSegment(raw, i, segs[0]) {
            ClosesOnce(k, raw[p..], m, segs[0].end - segs[0].start);
          }
          assert segs == [segs[0]] + segs[1..];
        }
      } else {
        Unclosed(k, raw[p..]);
      }
    } else {
      NothingOpens(raw, i, |raw|);
      ExtractSkips(raw, i, |raw|);
    }
  }

  /** Read off: pairwise disjoint, increasing, shortest from their bracket, bracket-free gaps. */
  lemma {:induction false} ScanInOrder(raw: string, i: nat, segs: seq<Segment>)
    requires i <= |raw| && IsScan(raw, i, segs)
    ensures forall n :: 0 <= n < |segs| ==>
      GoodSegment(raw, if n == 0 then i else segs[n - 1].end, segs[n]) && i <= segs[n].start
    ensures forall a, b :: 0 <= a < b < |segs| ==> segs[a].end <= segs[b].start
    ensures segs != [] ==> segs[|segs| - 1].end <= |raw| && Exhausted(raw, segs[|segs| - 1].end)
    decreases |segs|
  {
    if segs != [] {
      ScanInOrder(raw, segs[0].end, segs[1..]);
      forall n | 0 < n < |segs|
        ensures GoodSegment(raw, segs[n - 1].end, segs[n]) && segs[0].end <= segs[n].start
      {
        assert segs[n] == segs[1..][n - 1];
      }
    }
  }

  /** Without a first bracket there is no bracket at all. */
  lemma {:induction false} NothingOpens(raw: string, i: nat, j: nat)
    requires i <= j <= |raw|
    requires forall p: nat :: !FirstOpening(raw, i, p)
    ensures Quiet(raw, i, j)
    decreases j - i
  {
    if i < j {
      NothingOpens(raw, i, j - 1);
      assert !FirstOpening(raw, i, j - 1);
    }
  }

  /** If no prefix is the shortest balanced one, no prefix is balanced. */
  lemma Unclosed(k: Kind, s: string)
    requires forall m: nat :: !Closes(k, s, m)
    ensures NeverCloses(k, s)
  {
    if j :| 0 < j <= |s| && Balance(k, s[..j]) == 0 {
      var m := Least(k, s, j);
    }
  }

  ghost function Least(k: Kind, s: string, j: nat): (m: nat)
    requires 0 < j <= |s| && Balance(k, s[..j]) == 0
    ensures Closes(k, s, m)
  {
    if j' :| 0 < j' < j && Balance(k, s[..j']) == 0 then Least(k, s, j') else j
  }
}
