/** parse_response: cut JSON values out of a model's answer and collect findings and a summary. */
module ResponseParser {
  import opened Options
  import opened BracketScan

  /** What json.loads returns. */
  datatype Value =
    | Null
    | Bool(b: bool)
    | Number(r: real)
    | NotFinite
    | Text(s: string)
    | List(items: seq<Value>)
    | Dict(fields: map<string, Value>)

  predicate Truthy(v: Value) {
    match v
    case Null => false
    case Bool(b) => b
    case Number(r) => r != 0.0
    case NotFinite => true
    case Text(s) => s != ""
    case List(items) => items != []
    case Dict(fields) => fields != map[]
  }

  type Fields = map<string, Value>

  predicate IsSummary(d: Fields) { "summary" in d && Truthy(d["summary"]) }

  predicate IsFinding(d: Fields) { !IsSummary(d) && ("severity" in d || "title" in d) }

  /** The dictionaries of a value that are reached through lists only, in document order. */
  function Leaves(v: Value): seq<Fields>
    decreases v, 0
  {
    match v
    case List(items) => LeavesOf(items)
    case Dict(fields) => [fields]
    case _ => []
  }

  function LeavesOf(vs: seq<Value>): seq<Fields>
    decreases vs, 1
  {
    if vs == [] then [] else Leaves(vs[0]) + LeavesOf(vs[1..])
  }

  function Findings(leaves: seq<Fields>): seq<Fields> {
    if leaves == [] then []
    else FindingOf(leaves[0]) + Findings(leaves[1..])
  }

  function FindingOf(d: Fields): seq<Fields> { if IsFinding(d) then [d] else [] }

  lemma FindingsFirst(d: Fields, rest: seq<Fields>)
    ensures Findings([d] + rest) == FindingOf(d) + Findings(rest)
  {
    assert ([d] + rest)[1..] == rest;
  }

  lemma {:induction false} FindingsConcat(a: seq<Fields>, b: seq<Fields>)
    ensures Findings(a + b) == Findings(a) + Findings(b)
    decreases |a|
  {
    if a == [] {
      assert a + b == b;
    } else {
      var d, rest := a[0], a[1..];
      assert a == [d] + rest && a + b == [d] + (rest + b);
      FindingsFirst(d, rest + b);
      FindingsFirst(d, rest);
      FindingsConcat(rest, b);
      assert FindingOf(d) + (Findings(rest) + Findings(b)) == FindingOf(d) + Findings(rest) + Findings(b);
    }
  }

  /** The last summary among the leaves, or what was there before. */
  function LastSummary(before: Option<Fields>, leaves: seq<Fields>): Option<Fields> {
    if leaves == [] then before
    else if IsSummary(leaves[|leaves| - 1]) then Some(leaves[|leaves| - 1])
    else LastSummary(before, leaves[..|leaves| - 1])
  }

  lemma {:induction false} LastSummaryConcat(before: Option<Fields>, a: seq<Fields>, b: seq<Fields>)
    ensures LastSummary(before, a + b) == LastSummary(LastSummary(before, a), b)
    decreases |b|
  {
    if b == [] {
      assert a + b == a;
    } else {
      assert (a + b)[..|a + b| - 1] == a + b[..|b| - 1];
      LastSummaryConcat(before, a, b[..|b| - 1]);
    }
  }

  lemma {:induction false} LeavesOfConcat(a: seq<Value>, b: seq<Value>)
    ensures LeavesOf(a + b) == LeavesOf(a) + LeavesOf(b)
    decreases |a|
  {
    if a == [] {
      assert a + b == b;
    } else {
      assert (a + b)[1..] == a[1..] + b;
      LeavesOfConcat(a[1..], b);
    }
  }

  /** Collecting from one more value appends its findings and lets its last summary win. */
  lemma CollectOneMore(before: Option<Fields>, vs: seq<Value>, v: Value)
    ensures Findings(LeavesOf(vs + [v])) == Findings(LeavesOf(vs)) + Findings(Leaves(v))
    ensures LastSummary(before, LeavesOf(vs + [v]))
         == LastSummary(LastSummary(before, LeavesOf(vs)), Leaves(v))
  {
    LeavesOfConcat(vs, [v]);
    assert LeavesOf([v]) == Leaves(v);
    FindingsConcat(LeavesOf(vs), Leaves(v));
    LastSummaryConcat(before, LeavesOf(vs), Leaves(v));
  }

  lemma CollectLeaf(before: Option<Fields>, d: Fields)
    ensures Findings([d]) == if IsFinding(d) then [d] else []
    ensures LastSummary(before, [d]) == if IsSummary(d) then Some(d) else before
  {
    assert [d][..0] == [] && [d][1..] == [];
  }

  /** From (f, s) to (f', s') by collecting these leaves. */
  ghost predicate Gained(
    f: seq<Fields>, s: Option<Fields>, leaves: seq<Fields>, f': seq<Fields>, s': Option<Fields>)
  {
    f' == f + Findings(leaves) && s' == LastSummary(s, leaves)
  }

  lemma GainedOneMore(
    f: seq<Fields>, s: Option<Fields>, vs: seq<Value>, v: Value,
    f1: seq<Fields>, s1: Option<Fields>, f2: seq<Fields>, s2: Option<Fields>)
    requires Gained(f, s, LeavesOf(vs), f1, s1) && Gained(f1, s1, Leaves(v), f2, s2)
    ensures Gained(f, s, LeavesOf(vs + [v]), f2, s2)
  {
    CollectOneMore(s, vs, v);
    Associative(f, Findings(LeavesOf(vs)), Findings(Leaves(v)));
  }

  lemma Associative<T>(a: seq<T>, b: seq<T>, c: seq<T>)
    ensures (a + b) + c == a + (b + c)
  {}

  /** The two variables that the nested function closes over. */
  class Collector {
    var findings: seq<Fields>
    var summary: Option<Fields>

    constructor ()
      ensures findings == [] && summary == None
    {
      findings, summary := [], None;
    }

    method Ingest(obj: Value)
      modifies this
      ensures findings == old(findings) + Findings(Leaves(obj))
      ensures summary == LastSummary(old(summary), Leaves(obj))
      decreases obj
    {
      match obj
      case List(items) =>
        for n := 0 to |items|
          invariant Gained(old(findings), old(summary), LeavesOf(items[..n]), findings, summary)
        {
          ghost var f1, s1 := findings, summary;
          assert items[..n + 1] == items[..n] + [items[n]];
          Ingest(items[n]);
          GainedOneMore(old(findings), old(summary), items[..n], items[n], f1, s1, findings, summary);
        }
        assert items[..|items|] == items;
      case Dict(fields) =>
        CollectLeaf(summary, fields);
        if "summary" in fields && Truthy(fields["summary"]) {
          summary := Some(fields);
        } else if "severity" in fields || "title" in fields {
          findings := findings + [fields];
        }
      case _ =>
    }

    /** Decode the text and ingest its value; a text that is no JSON is skipped, another error raises. */
    method IngestText(loads: Decoder, text: string) returns (raised: bool)
      modifies this
      ensures raised <==> Load(loads, text).Raises?
      ensures Load(loads, text).NoJson? ==> findings == old(findings) && summary == old(summary)
      ensures Load(loads, text).Loaded? ==>
        Gained(old(findings), old(summary), Leaves(Load(loads, text).v), findings, summary)
    {
      var loaded := Load(loads, text);
      if loaded.Raises? {
        return true;
      }
      if loaded.Loaded? {
        Ingest(loaded.v);
      }
      raised := false;
    }
  }

  /**
   * What decoding and walking a text comes to: its value, a JSONDecodeError, or another error, as
   * for an integer of more than 4300 digits (ValueError) or too deep nesting (RecursionError).
   */
  datatype Loading = Loaded(v: Value) | NoJson | Raises

  /** json.loads, for the finitely many texts that it does not reject as no JSON. */
  type Decoder = map<string, Loading>

  function Load(loads: Decoder, text: string): Loading { if text in loads then loads[text] else NoJson }

  function Decoded(loads: Decoder, text: string): seq<Value> {
    match Load(loads, text) case Loaded(v) => [v] case _ => []
  }

  function Cut(raw: string, g: Segment): string {
    if g.start <= g.end <= |raw| then raw[g.start..g.end] else []
  }

  function Texts(raw: string, segs: seq<Segment>): seq<string> {
    if segs == [] then [] else [Cut(raw, segs[0])] + Texts(raw, segs[1..])
  }

  lemma TextsCons(raw: string, g: Segment, segs: seq<Segment>)
    ensures Texts(raw, [g] + segs) == [Cut(raw, g)] + Texts(raw, segs)
  {
    assert ([g] + segs)[1..] == segs;
  }

  /** The texts that are cut out from position i on. */
  ghost function TextsFrom(raw: string, i: nat): seq<string>
    requires i <= |raw|
  {
    Texts(raw, Extract(raw, i))
  }

  /** The values that decode, in the order of their texts; the other texts are dropped. */
  function Values(loads: Decoder, texts: seq<string>): seq<Value> {
    if texts == [] then [] else Decoded(loads, texts[0]) + Values(loads, texts[1..])
  }

  predicate SomeRaises(loads: Decoder, texts: seq<string>) { exists t :: t in texts && Load(loads, t).Raises? }

  // ---------- The loop as a fold over the texts ----------

  datatype Outcome = Parsed(findings: seq<Fields>, summary: Option<Fields>) | Raised

  /** Collecting from these texts on, one after the other, until one raises. */
  function Taken(loads: Decoder, texts: seq<string>, f: seq<Fields>, s: Option<Fields>): Outcome {
    if texts == [] then Parsed(f, s)
    else
      match Load(loads, texts[0])
      case Raises => Raised
      case NoJson => Taken(loads, texts[1..], f, s)
      case Loaded(v) => Taken(loads, texts[1..], f + Findings(Leaves(v)), LastSummary(s, Leaves(v)))
  }

  lemma TakenFirst(loads: Decoder, t: string, rest: seq<string>, f: seq<Fields>, s: Option<Fields>)
    ensures Taken(loads, [t] + rest, f, s)
         == match Load(loads, t)
            case Raises => Raised
            case NoJson => Taken(loads, rest, f, s)
            case Loaded(v) => Taken(loads, rest, f + Findings(Leaves(v)), LastSummary(s, Leaves(v)))
    ensures Values(loads, [t] + rest) == Decoded(loads, t) + Values(loads, rest)
  {
    assert ([t] + rest)[1..] == rest;
  }

  /** It raises exactly if some text does; otherwise it adds the findings and summaries of all values. */
  lemma {:induction false} TakenIs(loads: Decoder, texts: seq<string>, f: seq<Fields>, s: Option<Fields>)
    ensures Taken(loads, texts, f, s).Raised? <==> SomeRaises(loads, texts)
    ensures !SomeRaises(loads, texts) ==>
      var leaves := LeavesOf(Values(loads, texts));
      Taken(loads, texts, f, s) == Parsed(f + Findings(leaves), LastSummary(s, leaves))
    decreases |texts|
  {
    if texts == [] {
      assert f + [] == f;
    } else {
      var t, rest := texts[0], texts[1..];
      assert texts == [t] + rest;
      RaisesFirst(loads, t, rest);
      TakenFirst(loads, t, rest, f, s);
      match Load(loads, t)
      case Raises =>
      case NoJson =>
        TakenIs(loads, rest, f, s);
        assert [] + Values(loads, rest) == Values(loads, rest);
      case Loaded(v) =>
        TakenIs(loads, rest, f + Findings(Leaves(v)), LastSummary(s, Leaves(v)));
        TakeFirst(v, Values(loads, rest), f, s);
    }
  }

  lemma RaisesFirst(loads: Decoder, t: string, rest: seq<string>)
    ensures SomeRaises(loads, [t] + rest) <==> Load(loads, t).Raises? || SomeRaises(loads, rest)
  {
    assert forall x :: x in [t] + rest <==> x == t || x in rest;
  }

  lemma TakeFirst(v: Value, vs: seq<Value>, f: seq<Fields>, s: Option<Fields>)
    ensures var first, rest, all := Leaves(v), LeavesOf(vs), LeavesOf([v] + vs);
      && f + Findings(first) + Findings(rest) == f + Findings(all)
      && LastSummary(LastSummary(s, first), rest) == LastSummary(s, all)
  {
    assert ([v] + vs)[1..] == vs;
    FindingsConcat(Leaves(v), LeavesOf(vs));
    LastSummaryConcat(s, Leaves(v), LeavesOf(vs));
    Associative(f, Findings(Leaves(v)), Findings(LeavesOf(vs)));
  }

  /** What the scan from i on makes of what has been collected so far. */
  ghost function From(loads: Decoder, raw: string, i: nat, f: seq<Fields>, s: Option<Fields>): Outcome {
    if i <= |raw| then Taken(loads, TextsFrom(raw, i), f, s) else Raised
  }

  lemma FromSkips(loads: Decoder, raw: string, i: nat, f: seq<Fields>, s: Option<Fields>)
    requires i < |raw| && !IsOpening(raw[i])
    ensures From(loads, raw, i, f, s) == From(loads, raw, i + 1, f, s)
  {}

  lemma CutFirst(raw: string, i: nat, end: nat)
    requires i < end <= |raw| && IsOpening(raw[i]) && Closes(KindOf(raw[i]), raw[i..], end - i)
    ensures TextsFrom(raw, i) == [raw[i..end]] + TextsFrom(raw, end)
  {
    ExtractClosed(raw, i, end - i);
    TextsCons(raw, Segment(i, end), Extract(raw, end));
  }

  lemma FromCuts(loads: Decoder, raw: string, i: nat, end: nat, f: seq<Fields>, s: Option<Fields>)
    requires i < end <= |raw| && IsOpening(raw[i]) && Closes(KindOf(raw[i]), raw[i..], end - i)
    ensures From(loads, raw, i, f, s)
         == match Load(loads, raw[i..end])
            case Raises => Raised
            case NoJson => From(loads, raw, end, f, s)
            case Loaded(v) => From(loads, raw, end, f + Findings(Leaves(v)), LastSummary(s, Leaves(v)))
  {
    CutFirst(raw, i, end);
    assert ([raw[i..end]] + TextsFrom(raw, end))[1..] == TextsFrom(raw, end);
  }

  lemma FromStops(loads: Decoder, raw: string, i: nat, f: seq<Fields>, s: Option<Fields>)
    requires i <= |raw|
    requires i < |raw| ==> IsOpening(raw[i]) && NeverCloses(KindOf(raw[i]), raw[i..])
    ensures From(loads, raw, i, f, s) == Parsed(f, s)
  {
    if i < |raw| {
      ExtractStuck(raw, i);
    }
  }

  /** All the values that a text yields. */
  ghost function Yield(loads: Decoder, raw: string): seq<Value> { Values(loads, TextsFrom(raw, 0)) }

  /** The whole scan. */
  lemma FromStart(loads: Decoder, raw: string)
    ensures From(loads, raw, 0, [], None).Raised? <==> SomeRaises(loads, TextsFrom(raw, 0))
    ensures !SomeRaises(loads, TextsFrom(raw, 0)) ==>
      From(loads, raw, 0, [], None)
        == Parsed(Findings(LeavesOf(Yield(loads, raw))), LastSummary(None, LeavesOf(Yield(loads, raw))))
  {
    TakenIs(loads, TextsFrom(raw, 0), [], None);
    assert [] + Findings(LeavesOf(Yield(loads, raw))) == Findings(LeavesOf(Yield(loads, raw)));
  }

  /** The inner loop: read from the bracket at i up to where its own kind balances. */
  method ReadValue(raw: string, i: nat) returns (closed: bool, j: nat)
    requires i < |raw| && IsOpening(raw[i])
    ensures closed ==> i <= j < |raw| && Closes(KindOf(raw[i]), raw[i..], j + 1 - i)
    ensures !closed ==> NeverCloses(KindOf(raw[i]), raw[i..])
  {
    var n := |raw|;
    var openCh := raw[i];
    var closeCh := if openCh == '{' then '}' else ']';
    ghost var k, s := KindOf(openCh), raw[i..];
    var depth := 0;
    var inStr, escape := false, false;
    j := i;
    while j < n
      invariant i <= j <= n
      invariant State(depth, inStr, escape) == Run(k, At(0), s[..j - i])
      invariant escape ==> inStr
      invariant if j == i then !inStr else depth > 0
      invariant forall m :: 0 < m <= j - i ==> Balance(k, s[..m]) != 0
    {
      var ch := raw[j];
      ReadOne(k, s, j - i);
      if escape {
        escape := false;
      } else if ch == '\\' && inStr {
        escape := true;
      } else if ch == '"' {
        inStr := !inStr;
      } else if !inStr {
        if ch == openCh {
          depth := depth + 1;
        } else if ch == closeCh {
          depth := depth - 1;
          if depth == 0 {
            return true, j;
          }
        }
      }
      j := j + 1;
    }
    closed := false;
  }

  /** The outer loop: skip to the next bracket, cut its value out, decode it, go on behind it. */
  method ParseResponse(raw: string, loads: Decoder) returns (r: Outcome)
    ensures r.Raised? <==> SomeRaises(loads, TextsFrom(raw, 0))
    ensures r.Parsed? ==>
      && r.findings == Findings(LeavesOf(Yield(loads, raw)))
      && r.summary == LastSummary(None, LeavesOf(Yield(loads, raw)))
  {
    var c := new Collector();
    var i, n := 0, |raw|;
    FromStart(loads, raw);
    while i < n
      invariant fresh(c) && i <= n
      invariant From(loads, raw, i, c.findings, c.summary) == From(loads, raw, 0, [], None)
    {
      if raw[i] != '{' && raw[i] != '[' {
        FromSkips(loads, raw, i, c.findings, c.summary);
        i := i + 1;
        continue;
      }
      var closed, j := ReadValue(raw, i);
      if !closed {
        break;
      }
      FromCuts(loads, raw, i, j + 1, c.findings, c.summary);
      var raised := c.IngestText(loads, raw[i..j + 1]);
      if raised {
        return Raised;
      }
      i := j + 1;
    }
    FromStops(loads, raw, i, c.findings, c.summary);
    r := Parsed(c.findings, c.summary);
  }
}
