/** What the findings and the summary of a model's answer are, leaf by leaf. */
module ResponseFindings {
  import opened Options
  import opened ResponseParser

  /** None, false, zero or empty. */
  predicate Blank(v: Value) {
    v == Null || v == Bool(false) || v == Number(0.0) || v == Text("") || v == List([]) || v == Dict(map[])
  }

  lemma TruthyIs(v: Value)
    ensures Truthy(v) <==> !Blank(v)
  {}

  lemma FindingIs(d: Fields)
    ensures IsFinding(d)
       <==> ("severity" in d || "title" in d) && ("summary" !in d || Blank(d["summary"]))
  {
    if "summary" in d {
      TruthyIs(d["summary"]);
    }
  }

  /**
   * Every leaf is selected on its own and in its place: it is a finding exactly if it has a
   * severity or a title, and no summary that is not blank.
   */
  lemma FindingsSelect(a: seq<Fields>, d: Fields, b: seq<Fields>)
    ensures Findings(a + [d] + b)
         == Findings(a)
            + (if ("severity" in d || "title" in d) && ("summary" !in d || Blank(d["summary"])) then [d] else [])
            + Findings(b)
    ensures Findings([]) == []
  {
    FindingsConcat(a + [d], b);
    FindingsConcat(a, [d]);
    CollectLeaf(None, d);
    FindingIs(d);
  }

  /** The findings are the leaves with a severity or a title and without a summary that is not blank. */
  lemma {:induction false} FindingsAre(leaves: seq<Fields>, d: Fields)
    ensures d in Findings(leaves)
       <==> d in leaves && ("severity" in d || "title" in d) && ("summary" !in d || Blank(d["summary"]))
    decreases |leaves|
  {
    FindingIs(d);
    if leaves != [] {
      FindingsAre(leaves[1..], d);
      assert leaves == [leaves[0]] + leaves[1..];
    }
  }

  predicate HasSummary(d: Fields) { "summary" in d && !Blank(d["summary"]) }

  predicate IsLastSummary(leaves: seq<Fields>, p: nat)
    requires p < |leaves|
  {
    HasSummary(leaves[p]) && forall q :: p < q < |leaves| ==> !HasSummary(leaves[q])
  }

  /** The summary is the last leaf that has one which is not blank, if there is any. */
  lemma {:induction false} SummaryIsLast(before: Option<Fields>, leaves: seq<Fields>)
    ensures (forall p :: 0 <= p < |leaves| ==> !HasSummary(leaves[p])) ==> LastSummary(before, leaves) == before
    ensures forall p :: 0 <= p < |leaves| && IsLastSummary(leaves, p) ==> LastSummary(before, leaves) == Some(leaves[p])
    decreases |leaves|
  {
    if leaves != [] {
      var rest, d := leaves[..|leaves| - 1], leaves[|leaves| - 1];
      SummaryIsLast(before, rest);
      forall p | 0 <= p < |rest| && IsLastSummary(leaves, p) ensures IsLastSummary(rest, p) && !HasSummary(d) {
        assert leaves[|rest|] == d;
        assert forall q :: p < q < |rest| ==> rest[q] == leaves[q];
      }
      if "summary" in d {
        TruthyIs(d["summary"]);
      }
    }
  }

  /** Reached from v through lists only. */
  predicate Reached(v: Value, d: Fields) {
    match v
    case Dict(fields) => fields == d
    case List(items) => exists item :: item in items && Reached(item, d)
    case _ => false
  }

  /** The leaves are the dictionaries reached through lists. */
  lemma {:induction false} LeavesAreReached(v: Value, d: Fields)
    ensures d in Leaves(v) <==> Reached(v, d)
    decreases v, 0
  {
    match v
    case List(items) => LeavesOfAreReached(items, d);
    case _ =>
  }

  lemma {:induction false} LeavesOfAreReached(vs: seq<Value>, d: Fields)
    ensures d in LeavesOf(vs) <==> exists item :: item in vs && Reached(item, d)
    decreases vs, 1
  {
    if vs != [] {
      LeavesAreReached(vs[0], d);
      LeavesOfAreReached(vs[1..], d);
      assert vs == [vs[0]] + vs[1..];
    }
  }

  /** In document order: a list stands for its items where it is, a scalar for nothing. */
  lemma LeavesFlatten(v: Value, rest: seq<Value>)
    ensures v.List? ==> LeavesOf([v] + rest) == LeavesOf(v.items + rest)
    ensures v.Dict? ==> LeavesOf([v] + rest) == [v.fields] + LeavesOf(rest)
    ensures !v.List? && !v.Dict? ==> LeavesOf([v] + rest) == LeavesOf(rest)
  {
    assert ([v] + rest)[1..] == rest;
    if v.List? {
      LeavesOfConcat(v.items, rest);
    }
    assert [] + LeavesOf(rest) == LeavesOf(rest);
  }

  /** A scan that does not raise returns, of the dictionaries reached in its values, exactly such findings. */
  lemma ScannedFindings(loads: Decoder, raw: string, d: Fields)
    ensures d in Findings(LeavesOf(Yield(loads, raw)))
       <==> (exists v :: v in Yield(loads, raw) && Reached(v, d))
            && ("severity" in d || "title" in d) && ("summary" !in d || Blank(d["summary"]))
  {
    FindingsAre(LeavesOf(Yield(loads, raw)), d);
    LeavesOfAreReached(Yield(loads, raw), d);
  }
}
