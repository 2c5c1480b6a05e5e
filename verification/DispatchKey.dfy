/**
  The suppression keys of task dispatches (activeAgentDispatchKey and
  activeTaskDispatchKey, internal/agent/agent_dedup.go).
*/
module DispatchKey {
  import opened Json
  import opened JsonCanon
  import opened LengthPrefix

  // ----- strings.TrimSpace

  predicate IsSpace(c: char) {
    || 9 <= c as int <= 13 || c == ' ' || c as int == 0x85 || c as int == 0xA0 || c as int == 0x1680
    || 0x2000 <= c as int <= 0x200A || c as int == 0x2028 || c as int == 0x2029 || c as int == 0x202F
    || c as int == 0x205F || c as int == 0x3000
  }

  function TrimLeft(s: string): string {
    if s != "" && IsSpace(s[0]) then TrimLeft(s[1..]) else s
  }

  function TrimRight(s: string): string {
    if s != "" && IsSpace(s[|s| - 1]) then TrimRight(s[..|s| - 1]) else s
  }

  function Trim(s: string): string {
    TrimRight(TrimLeft(s))
  }

  predicate Blank(s: string) {
    forall i | 0 <= i < |s| :: IsSpace(s[i])
  }

  predicate Tight(s: string) {
    s == "" || (!IsSpace(s[0]) && !IsSpace(s[|s| - 1]))
  }

  lemma {:induction false} TrimLeftDrops(s: string) returns (before: string)
    ensures s == before + TrimLeft(s) && Blank(before)
    ensures TrimLeft(s) == "" || !IsSpace(TrimLeft(s)[0])
  {
    before := "";
    if s != "" && IsSpace(s[0]) {
      var more := TrimLeftDrops(s[1..]);
      before := [s[0]] + more;
      assert s == [s[0]] + s[1..];
    }
  }

  lemma {:induction false} TrimRightDrops(s: string) returns (after: string)
    ensures s == TrimRight(s) + after && Blank(after)
    ensures TrimRight(s) == "" || (!IsSpace(TrimRight(s)[|TrimRight(s)| - 1]) && TrimRight(s)[0] == s[0])
    decreases |s|
  {
    after := "";
    if s != "" && IsSpace(s[|s| - 1]) {
      var more := TrimRightDrops(s[..|s| - 1]);
      after := more + [s[|s| - 1]];
      assert s == s[..|s| - 1] + [s[|s| - 1]];
    }
  }

  /** Trimming removes white space at both ends and nothing else. */
  lemma TrimRemovesOuterSpace(s: string) returns (before: string, after: string)
    ensures s == before + Trim(s) + after && Blank(before) && Blank(after) && Tight(Trim(s))
  {
    before := TrimLeftDrops(s);
    after := TrimRightDrops(TrimLeft(s));
  }

  // ----- sort.Strings

  predicate Ordered(xs: seq<string>) {
    forall i, j | 0 <= i < j < |xs| :: !Less(xs[j], xs[i])
  }

  function InsertString(x: string, xs: seq<string>): seq<string> {
    if xs == [] || !Less(xs[0], x) then [x] + xs else [xs[0]] + InsertString(x, xs[1..])
  }

  function SortStrings(xs: seq<string>): seq<string> {
    if xs == [] then [] else InsertString(xs[0], SortStrings(xs[1..]))
  }

  lemma {:induction false} InsertKeepsAll(x: string, xs: seq<string>)
    ensures multiset(InsertString(x, xs)) == multiset{x} + multiset(xs)
  {
    if xs != [] && Less(xs[0], x) {
      InsertKeepsAll(x, xs[1..]);
      assert xs == [xs[0]] + xs[1..];
    }
  }

  lemma {:induction false} InsertKeepsOrder(x: string, xs: seq<string>)
    requires Ordered(xs)
    ensures Ordered(InsertString(x, xs))
  {
    if xs == [] || !Less(xs[0], x) {
      forall j | 0 <= j < |xs|
        ensures !Less(xs[j], x)
      {
        LessIsTotal(x, xs[0]);
        LessIsTotal(xs[0], xs[j]);
        if Less(xs[j], x) {
          NotLessChains(xs[j], xs[0], x);
        }
      }
    } else {
      var rest := InsertString(x, xs[1..]);
      InsertKeepsOrder(x, xs[1..]);
      InsertKeepsAll(x, xs[1..]);
      LessIsTotal(x, xs[0]);
      forall j | 0 <= j < |rest|
        ensures !Less(rest[j], xs[0])
      {
        assert rest[j] in multiset(rest);
        assert rest[j] == x || rest[j] in xs[1..];
      }
    }
  }

  lemma NotLessChains(a: string, b: string, c: string)
    requires !Less(a, b) && !Less(b, c)
    ensures !Less(a, c)
  {
    LessIsTotal(a, b);
    LessIsTotal(b, c);
    LessIsTotal(a, c);
    if Less(a, c) && Less(c, b) {
      LessIsTransitive(a, c, b);
    }
  }

  lemma {:induction false} SortSorts(xs: seq<string>)
    ensures Ordered(SortStrings(xs)) && multiset(SortStrings(xs)) == multiset(xs)
  {
    if xs != [] {
      SortSorts(xs[1..]);
      InsertKeepsOrder(xs[0], SortStrings(xs[1..]));
      InsertKeepsAll(xs[0], SortStrings(xs[1..]));
      assert xs == [xs[0]] + xs[1..];
    }
  }

  lemma OrderedHeads(xs: seq<string>, ys: seq<string>)
    requires Ordered(xs) && Ordered(ys) && xs != [] && ys != [] && xs[0] in ys && ys[0] in xs
    ensures xs[0] == ys[0]
  {
    LessIsTotal(xs[0], ys[0]);
    LessIsTotal(ys[0], ys[0]);
  }

  lemma MultisetTail(xs: seq<string>)
    requires xs != []
    ensures multiset(xs[1..]) == multiset(xs) - multiset{xs[0]}
  {
    assert xs == [xs[0]] + xs[1..];
  }

  lemma SameElements(xs: seq<string>, ys: seq<string>)
    requires multiset(xs) == multiset(ys) && xs != []
    ensures ys != [] && xs[0] in ys && ys[0] in xs
  {
    assert |multiset(xs)| == |multiset(ys)|;
    assert xs[0] in multiset(ys) && ys[0] in multiset(xs);
  }

  lemma {:induction false} OrderedIsUnique(xs: seq<string>, ys: seq<string>)
    requires Ordered(xs) && Ordered(ys) && multiset(xs) == multiset(ys)
    ensures xs == ys
  {
    if xs == [] {
      assert |multiset(ys)| == 0;
    } else {
      SameElements(xs, ys);
      OrderedHeads(xs, ys);
      MultisetTail(xs);
      MultisetTail(ys);
      OrderedIsUnique(xs[1..], ys[1..]);
      assert xs == [xs[0]] + xs[1..] && ys == [ys[0]] + ys[1..];
    }
  }

  /** Sorted lists agree exactly when the lists are permutations of each other. */
  lemma SortIffPermutation(xs: seq<string>, ys: seq<string>)
    ensures SortStrings(xs) == SortStrings(ys) <==> multiset(xs) == multiset(ys)
  {
    SortSorts(xs);
    SortSorts(ys);
    if multiset(xs) == multiset(ys) {
      OrderedIsUnique(SortStrings(xs), SortStrings(ys));
    }
  }

  // ----- The keys

  function AgentDispatchKey(agentName: string, prompt: string, context: string): string {
    LengthPrefixed([agentName, Trim(prompt), Trim(context)])
  }

  lemma AgentKeysMeanSameDispatch(a: string, p: string, c: string, b: string, q: string, d: string)
    ensures AgentDispatchKey(a, p, c) == AgentDispatchKey(b, q, d) <==> a == b && Trim(p) == Trim(q) && Trim(c) == Trim(d)
  {
    var x, y := [a, Trim(p), Trim(c)], [b, Trim(q), Trim(d)];
    LengthPrefixIsInjective(x, y);
    assert x == y <==> x[0] == y[0] && x[1] == y[1] && x[2] == y[2];
  }

  datatype Task = Task(
    agent: string, prompt: string, context: string, description: string,
    sharedNotes: bool, background: bool, dagId: string, dagDeps: seq<string>)

  function Flag(b: bool): string {
    if b then "1" else "0"
  }

  function TrimAll(deps: seq<string>): (r: seq<string>)
    ensures |r| == |deps|
  {
    seq(|deps|, i requires 0 <= i < |deps| => Trim(deps[i]))
  }

  function Fixed(specName: string, t: Task, contract: string): seq<string> {
    [specName, Trim(t.agent), Trim(t.prompt), Trim(t.context), Trim(t.description), Trim(contract),
     Flag(t.sharedNotes), Flag(t.background), Trim(t.dagId), Itoa(|t.dagDeps|)]
  }

  function TaskKey(specName: string, t: Task, contract: string): string {
    LengthPrefixed(Fixed(specName, t, contract) + SortStrings(TrimAll(t.dagDeps)))
  }

  /** activeTaskDispatchKey: the dependencies are copied, trimmed in place and sorted. */
  method ActiveTaskDispatchKey(specName: string, params: Task, contract: string) returns (key: string)
    ensures key == TaskKey(specName, params, contract)
  {
    var deps := new string[|params.dagDeps|](i requires 0 <= i < |params.dagDeps| => params.dagDeps[i]);
    for i := 0 to deps.Length
      invariant forall k | 0 <= k < deps.Length :: deps[k] == if k < i then Trim(params.dagDeps[k]) else params.dagDeps[k]
    {
      deps[i] := Trim(deps[i]);
    }
    assert deps[..] == TrimAll(params.dagDeps);
    var parts := Fixed(specName, params, contract);
    key := LengthPrefixedKey(parts + SortStrings(deps[..]));
  }

  /**
    Two dispatches suppress each other exactly when every field that changes the
    work agrees, dependencies counted without their order.
  */
  lemma TaskKeysMeanSameWork(n: string, t: Task, c: string, m: string, u: Task, d: string)
    ensures TaskKey(n, t, c) == TaskKey(m, u, d) <==>
      && n == m && Trim(t.agent) == Trim(u.agent) && Trim(t.prompt) == Trim(u.prompt)
      && Trim(t.context) == Trim(u.context) && Trim(t.description) == Trim(u.description) && Trim(c) == Trim(d)
      && t.sharedNotes == u.sharedNotes && t.background == u.background && Trim(t.dagId) == Trim(u.dagId)
      && multiset(TrimAll(t.dagDeps)) == multiset(TrimAll(u.dagDeps))
  {
    var x, y := Fixed(n, t, c), Fixed(m, u, d);
    var s, r := SortStrings(TrimAll(t.dagDeps)), SortStrings(TrimAll(u.dagDeps));
    LengthPrefixIsInjective(x + s, y + r);
    SortIffPermutation(TrimAll(t.dagDeps), TrimAll(u.dagDeps));
    SplitsAt(x, s, y, r);
    SameCount(TrimAll(t.dagDeps), TrimAll(u.dagDeps));
    FixedAgrees(n, t, c, m, u, d);
  }

  lemma SplitsAt(x: seq<string>, s: seq<string>, y: seq<string>, r: seq<string>)
    requires |x| == |y|
    ensures x + s == y + r <==> x == y && s == r
  {
    if x + s == y + r {
      assert x == (x + s)[..|x|] && y == (y + r)[..|y|];
      assert s == (x + s)[|x|..] && r == (y + r)[|y|..];
    }
  }

  lemma SameCount(xs: seq<string>, ys: seq<string>)
    ensures multiset(xs) == multiset(ys) ==> |xs| == |ys|
  {
    assert |multiset(xs)| == |xs| && |multiset(ys)| == |ys|;
  }

  /** The fixed fields; the count of dependencies follows from the dependencies. */
  lemma FixedAgrees(n: string, t: Task, c: string, m: string, u: Task, d: string)
    requires |t.dagDeps| == |u.dagDeps| || multiset(TrimAll(t.dagDeps)) != multiset(TrimAll(u.dagDeps))
    ensures multiset(TrimAll(t.dagDeps)) == multiset(TrimAll(u.dagDeps)) ==>
      (Fixed(n, t, c) == Fixed(m, u, d) <==>
        && n == m && Trim(t.agent) == Trim(u.agent) && Trim(t.prompt) == Trim(u.prompt)
        && Trim(t.context) == Trim(u.context) && Trim(t.description) == Trim(u.description) && Trim(c) == Trim(d)
        && t.sharedNotes == u.sharedNotes && t.background == u.background && Trim(t.dagId) == Trim(u.dagId))
  {
    var x, y := Fixed(n, t, c), Fixed(m, u, d);
    assert x == y <==> forall i | 0 <= i < 10 :: x[i] == y[i];
  }
}
