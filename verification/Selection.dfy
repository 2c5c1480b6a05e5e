/**
  Transcript selection (internal/agent/autocontinue_select_typesafe.go): each message
  is scored once by a judge, in batches under a work ceiling, and remembered in a
  cache that is valid for one original request and one last reply.

  SHA-256 is taken to be injective, so a key is the text that is hashed.
*/
module Selection {
  import opened Wrappers
  import opened DispatchKey

  const TranscriptCap: nat := 20
  const MaxBatches: nat := 8
  const MaxScoreable: nat := MaxBatches * TranscriptCap
  const CacheCap: nat := 2000
  const MinNoul: real := 0.5

  datatype Message = Message(role: string, content: string)

  datatype Score = Score(keep: bool, scored: bool, score: real)

  datatype Selected = Selected(msg: Message, pinned: bool, keep: bool, scored: bool, score: real)

  /** The judge's noul for a message, or None when its answer is missing or not to be trusted. */
  type Judge = (string, string, string, string) -> Option<real>

  // ----- Keys

  predicate NulFree(s: string) {
    '\0' !in s
  }

  function Key(role: string, content: string): string {
    role + ['\0'] + Trim(content)
  }

  type Scope = (string, string)

  function ScopeOf(original: string, last: string): Scope {
    (Key("user", original), Key("assistant", last))
  }

  /** Where the first NUL stands. */
  function NulAt(s: string): nat {
    if s == "" || s[0] == '\0' then 0 else 1 + NulAt(s[1..])
  }

  lemma {:induction false} NulEndsTheRole(role: string, more: string)
    requires NulFree(role)
    ensures NulAt(role + ['\0'] + more) == |role|
  {
    var k := role + ['\0'] + more;
    if role != "" {
      assert k[1..] == role[1..] + ['\0'] + more;
      NulEndsTheRole(role[1..], more);
    }
  }

  lemma KeyTellsRoleAndContent(role: string, content: string, other: string, theirs: string)
    requires NulFree(role) && NulFree(other)
    ensures Key(role, content) == Key(other, theirs) <==> role == other && Trim(content) == Trim(theirs)
  {
    NulEndsTheRole(role, Trim(content));
    NulEndsTheRole(other, Trim(theirs));
    var k, l := Key(role, content), Key(other, theirs);
    assert role == k[..|role|] && other == l[..|other|];
    assert Trim(content) == k[|role| + 1..] && Trim(theirs) == l[|other| + 1..];
  }

  lemma ScopeTellsRequestAndReply(o: string, l: string, p: string, m: string)
    ensures ScopeOf(o, l) == ScopeOf(p, m) <==> Trim(o) == Trim(p) && Trim(l) == Trim(m)
  {
    KeyTellsRoleAndContent("user", o, "user", p);
    KeyTellsRoleAndContent("assistant", l, "assistant", m);
  }

  // ----- What the judge says

  /** Fail-open: no answer keeps the message and leaves it unscored. */
  function Verdict(judge: Judge, original: string, last: string, m: Message): Score {
    match judge(Trim(original), Trim(last), m.role, Trim(m.content))
    case None => Score(true, false, 0.0)
    case Some(noul) => Score(noul >= MinNoul, true, noul)
  }

  function Apply(s: Selected, v: Score): Selected {
    s.(keep := v.keep, scored := v.scored, score := v.score)
  }

  /** Every entry is what the judge says of its message in the cache's scope. */
  ghost predicate Faithful(judge: Judge, scope: Option<Scope>, entries: map<string, Score>) {
    forall o, l, role, content | scope == Some(ScopeOf(o, l)) && NulFree(role) && Key(role, content) in entries ::
      entries[Key(role, content)] == Verdict(judge, o, l, Message(role, content)) && entries[Key(role, content)].scored
  }

  /** Fresh scores: each key belongs to some message the judge scored. */
  ghost predicate FreshFrom(judge: Judge, o: string, l: string, found: map<string, Score>) {
    forall key | key in found :: exists m: Message ::
      NulFree(m.role) && key == Key(m.role, m.content) && found[key] == Verdict(judge, o, l, m) && found[key].scored
  }

  lemma FreshIsFaithful(judge: Judge, o: string, l: string, found: map<string, Score>)
    requires FreshFrom(judge, o, l, found)
    ensures Faithful(judge, Some(ScopeOf(o, l)), found)
  {
    forall p, n, role, content | ScopeOf(o, l) == ScopeOf(p, n) && NulFree(role) && Key(role, content) in found
      ensures found[Key(role, content)] == Verdict(judge, p, n, Message(role, content)) && found[Key(role, content)].scored
    {
      var m: Message :| NulFree(m.role) && Key(role, content) == Key(m.role, m.content)
        && found[Key(role, content)] == Verdict(judge, o, l, m) && found[Key(role, content)].scored;
      ScopeTellsRequestAndReply(o, l, p, n);
      KeyTellsRoleAndContent(role, content, m.role, m.content);
    }
  }

  lemma MergedIsFaithful(judge: Judge, scope: Option<Scope>, a: map<string, Score>, b: map<string, Score>)
    requires Faithful(judge, scope, a) && Faithful(judge, scope, b)
    ensures Faithful(judge, scope, a + b)
  {
    forall o, l, role, content | scope == Some(ScopeOf(o, l)) && NulFree(role) && Key(role, content) in a + b
      ensures (a + b)[Key(role, content)] == Verdict(judge, o, l, Message(role, content)) && (a + b)[Key(role, content)].scored
    {
      if Key(role, content) in b {
        assert b[Key(role, content)].scored;
      } else {
        assert a[Key(role, content)].scored;
      }
    }
  }

  lemma MergeSize(a: map<string, Score>, b: map<string, Score>)
    ensures |a + b| <= |a| + |b|
  {
    assert (a + b).Keys == a.Keys + b.Keys;
    UnionSize(a.Keys, b.Keys);
    assert |a.Keys| == |a| && |b.Keys| == |b|;
  }

  lemma UnionSize(a: set<string>, b: set<string>)
    ensures |a + b| <= |a| + |b|
  {
    assert |a + b| == |a| + |b - a| by {
      assert a + b == a + (b - a);
    }
    assert |b| == |b - a| + |b * a| by {
      assert b == (b - a) + (b * a);
    }
  }

  /** typesafeScoreCache; scope None is the nil map. */
  class ScoreCache {
    var scope: Option<Scope>
    var entries: map<string, Score>

    constructor ()
      ensures scope == None && entries == map[]
    {
      scope, entries := None, map[];
    }

    ghost predicate Valid(judge: Judge)
      reads this
    {
      Faithful(judge, scope, entries) && |entries| <= CacheCap
    }

    /** A hit is what the judge says of every message with that key under that scope. */
    method Lookup(ghost judge: Judge, s: Scope, key: string) returns (r: Option<Score>)
      requires Valid(judge)
      ensures r.Some? <==> scope == Some(s) && key in entries
      ensures r.Some? ==> r.value == entries[key]
      ensures r.Some? ==> forall o, l, role, content | s == ScopeOf(o, l) && NulFree(role) && key == Key(role, content) ::
                r.value.scored && r.value == Verdict(judge, o, l, Message(role, content))
    {
      if scope != Some(s) {
        return None;
      }
      r := if key in entries then Some(entries[key]) else None;
    }

    method Store(ghost judge: Judge, o: string, l: string, found: map<string, Score>)
      requires Valid(judge) && FreshFrom(judge, o, l, found) && |found| <= MaxScoreable
      modifies this
      ensures Valid(judge) && scope == Some(ScopeOf(o, l))
      ensures entries == (if old(scope) == Some(ScopeOf(o, l)) && |old(entries)| + |found| <= CacheCap then old(entries) else map[]) + found
    {
      var s := ScopeOf(o, l);
      if scope == None || scope != Some(s) || |entries| + |found| > CacheCap {
        entries := map[];
        scope := Some(s);
      }
      FreshIsFaithful(judge, o, l, found);
      MergeSize(entries, found);
      MergedIsFaithful(judge, scope, entries, found);
      entries := entries + found;
    }

    method Clear(ghost judge: Judge)
      modifies this
      ensures Valid(judge) && scope == None && entries == map[]
    {
      scope, entries := None, map[];
    }
  }

  // ----- One selection

  datatype Batch = Batch(keep: set<nat>, scores: map<nat, real>, failed: bool)

  /** The batch's answers are the judge's. */
  ghost predicate Answered(judge: Judge, o: string, l: string, transcript: seq<Message>, todo: seq<nat>, r: Batch) {
    forall i | i in todo :: i < |transcript| &&
      var v := Verdict(judge, o, l, transcript[i]);
      (i in r.keep <==> v.keep) && (i in r.scores <==> v.scored) && (v.scored ==> r.scores[i] == v.score)
  }

  /** What happens around the calls: which ones fail, which batches run out of time, when the agent is stopped. */
  datatype Backend = Backend(
    fails: (nat, nat) -> bool,   // by batch and attempt
    late: nat -> bool,           // no time left for a second attempt
    stopped: nat -> bool)        // seen before launching a batch; after the last one at their number
  {
    /** One retry, unless the batch is out of time. */
    predicate Answers(b: nat) {
      !fails(b, 0) || (!late(b) && !fails(b, 1))
    }

    predicate Succeeds(n: nat) {
      (forall b: nat | b <= n :: !stopped(b)) && forall b: nat | b < n :: Answers(b)
    }
  }

  /** One Decide call: it fails as a whole or answers every message of the batch. */
  method JudgeBatch(judge: Judge, o: string, l: string, transcript: seq<Message>, todo: seq<nat>, fails: bool) returns (r: Batch)
    requires forall i | i in todo :: i < |transcript|
    ensures r.failed == fails && (fails || Answered(judge, o, l, transcript, todo, r))
  {
    r := Batch({}, map[], fails);
    if fails {
      return;
    }
    for k := 0 to |todo|
      invariant !r.failed && Answered(judge, o, l, transcript, todo[..k], r)
    {
      var i := todo[k];
      assert i in todo;
      match judge(Trim(o), Trim(l), transcript[i].role, Trim(transcript[i].content)) {
        case None => r := r.(keep := r.keep + {i}, scores := r.scores - {i});
        case Some(noul) =>
          r := r.(scores := r.scores[i := noul], keep := if noul >= MinNoul then r.keep + {i} else r.keep - {i});
      }
    }
    assert todo[..|todo|] == todo;
  }

  function Concat(batches: seq<seq<nat>>): seq<nat> {
    if batches == [] then [] else Concat(batches[..|batches| - 1]) + batches[|batches| - 1]
  }

  function BatchCount(n: nat): nat {
    (n + TranscriptCap - 1) / TranscriptCap
  }

  lemma OneMoreBatch(full: nat, k: nat)
    requires 0 < k <= TranscriptCap
    ensures BatchCount(TranscriptCap * full + k) == full + 1
  {
  }

  /** Batches of TranscriptCap, the last one perhaps shorter. */
  method SplitBatches(todo: seq<nat>) returns (batches: seq<seq<nat>>)
    ensures Concat(batches) == todo
    ensures forall b | b in batches :: 0 < |b| <= TranscriptCap
    ensures |batches| == BatchCount(|todo|) && (|todo| <= MaxScoreable ==> |batches| <= MaxBatches)
  {
    batches := [];
    var start := 0;
    while start < |todo|
      invariant start <= |todo| && Concat(batches) == todo[..start]
      invariant start == |todo| || start == TranscriptCap * |batches|
      invariant |batches| == BatchCount(start)
      invariant forall b | b in batches :: 0 < |b| <= TranscriptCap
    {
      var end := if start + TranscriptCap < |todo| then start + TranscriptCap else |todo|;
      assert (batches + [todo[start..end]])[..|batches|] == batches;
      OneMoreBatch(|batches|, end - start);
      batches := batches + [todo[start..end]];
      assert todo[..start] + todo[start..end] == todo[..end];
      start := end;
    }
    assert todo[..|todo|] == todo;
  }

  /**
    Launches the batches until the agent is stopped; each may be retried once. Success
    means that every batch was launched and answered and nobody stopped the agent.
  */
  method RunBatches(judge: Judge, o: string, l: string, transcript: seq<Message>, batches: seq<seq<nat>>, backend: Backend)
    returns (ok: bool, results: seq<Batch>)
    requires forall i | i in Concat(batches) :: i < |transcript|
    ensures ok <==> backend.Succeeds(|batches|)
    ensures ok ==> |results| == |batches| && forall b | 0 <= b < |batches| :: Answered(judge, o, l, transcript, batches[b], results[b])
  {
    var slots := new Batch[|batches|](_ => Batch({}, map[], false));
    var b := 0;
    while b < |batches| && !backend.stopped(b)
      invariant 0 <= b <= |batches| && forall c: nat | c < b :: !backend.stopped(c)
      invariant forall c: nat | c < b :: slots[c].failed == !backend.Answers(c)
      invariant forall c: nat | c < b :: slots[c].failed || Answered(judge, o, l, transcript, batches[c], slots[c])
    {
      InSomeBatch(batches, b);
      slots[b] := JudgeBatch(judge, o, l, transcript, batches[b], backend.fails(b, 0));
      if slots[b].failed && !backend.late(b) {
        slots[b] := JudgeBatch(judge, o, l, transcript, batches[b], backend.fails(b, 1));
      }
      b := b + 1;
    }
    // a stop seen at a launch stays; the last look comes after all batches
    if b < |batches| || backend.stopped(|batches|) {
      return false, [];
    }
    for c := 0 to |batches|
      invariant forall k: nat | k < c :: !slots[k].failed
    {
      if slots[c].failed {
        return false, [];
      }
    }
    ok, results := true, slots[..];
  }

  lemma {:induction false} InSomeBatch(batches: seq<seq<nat>>, b: nat)
    requires b < |batches|
    ensures forall i | i in batches[b] :: i in Concat(batches)
  {
    if b < |batches| - 1 {
      InSomeBatch(batches[..|batches| - 1], b);
    }
  }

  // ----- The messages a selection has to score

  predicate Cached(s: Selected, scope: Option<Scope>, entries: map<string, Score>, want: Scope) {
    scope == Some(want) && Key(s.msg.role, s.msg.content) in entries
  }

  /** The unpinned messages the cache does not know, oldest first. */
  ghost predicate Uncached(sel: seq<Selected>, scope: Option<Scope>, entries: map<string, Score>, want: Scope, list: seq<nat>) {
    && Increasing(list, |sel|)
    && forall i: nat | i < |sel| :: i in list <==> !sel[i].pinned && !Cached(sel[i], scope, entries, want)
  }

  /** The oldest beyond the work ceiling are left out without being scored. */
  function LeftOut(list: seq<nat>): seq<nat> {
    if |list| > MaxScoreable then list[..|list| - MaxScoreable] else []
  }

  /** A message as it enters the selection. */
  predicate Untouched(s: Selected) {
    s.keep && !s.scored && s.score == 0.0 && NulFree(s.msg.role)
  }

  /** What the selection makes of one message. */
  function Outcome(judge: Judge, o: string, l: string, s: Selected, leftOut: bool): Selected {
    if s.pinned then s else if leftOut then s.(keep := false) else Apply(s, Verdict(judge, o, l, s.msg))
  }

  /** Message i after a look into the cache. */
  function Looked(judge: Judge, o: string, l: string, s: Selected, hit: bool): Selected {
    if hit then Outcome(judge, o, l, s, false) else s
  }

  /** One look into the cache. */
  method ApplyHit(cache: ScoreCache, ghost judge: Judge, o: string, l: string, s: Selected) returns (r: Selected, hit: bool)
    requires cache.Valid(judge) && NulFree(s.msg.role)
    ensures hit == (s.pinned || Cached(s, cache.scope, cache.entries, ScopeOf(o, l))) && r == Looked(judge, o, l, s, hit)
  {
    r, hit := s, true;
    if !s.pinned {
      var found := cache.Lookup(judge, ScopeOf(o, l), Key(s.msg.role, s.msg.content));
      hit := found.Some?;
      if hit {
        assert s.msg == Message(s.msg.role, s.msg.content);
        r := Apply(s, found.value);
      }
    }
  }

  /** The first n messages have been looked up; the misses are listed. */
  ghost predicate LookedUp(judge: Judge, o: string, l: string, was: seq<Selected>, now: seq<Selected>, misses: seq<nat>, n: nat) {
    && |was| == |now| && n <= |was|
    && (forall k: nat | k < n :: now[k] == Looked(judge, o, l, was[k], k !in misses))
    && (forall k: nat | n <= k < |was| :: now[k] == was[k])
  }

  lemma LookedUpStep(judge: Judge, o: string, l: string, was: seq<Selected>, now: seq<Selected>, misses: seq<nat>, n: nat, hit: bool)
    requires n < |was| && LookedUp(judge, o, l, was, now, misses, n) && Increasing(misses, n)
    ensures LookedUp(judge, o, l, was, now[n := Looked(judge, o, l, was[n], hit)], if hit then misses else misses + [n], n + 1)
  {
  }

  /** Applies the cached scores; the rest is to be scored. */
  method ApplyCached(cache: ScoreCache, ghost judge: Judge, o: string, l: string, sel: array<Selected>) returns (scoreable: seq<nat>)
    requires cache.Valid(judge) && forall i | 0 <= i < sel.Length :: Untouched(sel[i])
    modifies sel
    ensures Uncached(old(sel[..]), cache.scope, cache.entries, ScopeOf(o, l), scoreable)
    ensures LookedUp(judge, o, l, old(sel[..]), sel[..], scoreable, sel.Length)
  {
    scoreable := [];
    ghost var was := sel[..];
    for i := 0 to sel.Length
      invariant Uncached(was[..i], cache.scope, cache.entries, ScopeOf(o, l), scoreable)
      invariant LookedUp(judge, o, l, was, sel[..], scoreable, i)
    {
      var s, hit := ApplyHit(cache, judge, o, l, sel[i]);
      UncachedGrows(was, cache.scope, cache.entries, ScopeOf(o, l), scoreable, i);
      LookedUpStep(judge, o, l, was, sel[..], scoreable, i, hit);
      sel[i] := s;
      if !hit {
        scoreable := scoreable + [i];
      }
    }
    assert was[..sel.Length] == was;
  }

  lemma UncachedGrows(sel: seq<Selected>, scope: Option<Scope>, entries: map<string, Score>, want: Scope, list: seq<nat>, i: nat)
    requires i < |sel| && Uncached(sel[..i], scope, entries, want, list)
    ensures Uncached(sel[..i + 1], scope, entries, want,
                     if sel[i].pinned || Cached(sel[i], scope, entries, want) then list else list + [i])
  {
  }

  /** Message i after its batch was answered. */
  function Judged(judge: Judge, o: string, l: string, was: seq<Selected>, i: nat): Selected
    requires i < |was|
  {
    Apply(was[i], Verdict(judge, o, l, was[i].msg))
  }

  function Messages(sel: seq<Selected>): (r: seq<Message>)
    ensures |r| == |sel|
  {
    seq(|sel|, i requires 0 <= i < |sel| => sel[i].msg)
  }

  /** The messages of the list have their answers, the others are as they were. */
  ghost predicate Progress(judge: Judge, o: string, l: string, was: seq<Selected>, before: seq<Selected>, now: seq<Selected>, list: seq<nat>) {
    |was| == |before| == |now| &&
    forall i: nat | i < |now| :: now[i] == if i in list then Judged(judge, o, l, was, i) else before[i]
  }

  /** Every scored message of the list is remembered. */
  ghost predicate Remembered(judge: Judge, o: string, l: string, was: seq<Selected>, list: seq<nat>, found: map<string, Score>) {
    forall i | i in list :: i < |was| &&
      (Verdict(judge, o, l, was[i].msg).scored ==> Key(was[i].msg.role, was[i].msg.content) in found)
  }

  lemma ProgressStep(judge: Judge, o: string, l: string, was: seq<Selected>, before: seq<Selected>, now: seq<Selected>, list: seq<nat>, i: nat)
    requires Progress(judge, o, l, was, before, now, list) && i < |now|
    ensures Progress(judge, o, l, was, before, now[i := Judged(judge, o, l, was, i)], list + [i])
  {
  }

  lemma RememberedStep(judge: Judge, o: string, l: string, was: seq<Selected>, list: seq<nat>, i: nat,
                       found: map<string, Score>, more: map<string, Score>)
    requires Remembered(judge, o, l, was, list, found) && Remembered(judge, o, l, was, [i], more) && found.Keys <= more.Keys
    ensures Remembered(judge, o, l, was, list + [i], more)
  {
    assert i in [i];
  }

  /** Records one message's answer. */
  method ApplyAnswer(ghost judge: Judge, o: string, l: string, ghost was: seq<Selected>, sel: array<Selected>, i: nat, r: Batch,
                     found: map<string, Score>) returns (more: map<string, Score>)
    requires i < sel.Length == |was| && Untouched(was[i]) && (sel[i] == was[i] || sel[i] == Judged(judge, o, l, was, i))
    requires Answered(judge, o, l, Messages(was), [i], r) && FreshFrom(judge, o, l, found)
    modifies sel
    ensures sel[..] == old(sel[..])[i := Judged(judge, o, l, was, i)]
    ensures FreshFrom(judge, o, l, more) && |more| <= |found| + 1
    ensures found.Keys <= more.Keys && Remembered(judge, o, l, was, [i], more)
  {
    assert i in [i];
    more := found;
    var m := sel[i].msg;
    sel[i] := sel[i].(keep := i in r.keep);
    if i in r.scores {
      sel[i] := sel[i].(scored := true, score := r.scores[i]);
      more := more[Key(m.role, m.content) := Score(sel[i].keep, true, r.scores[i])];
    }
  }

  ghost predicate Appliable(judge: Judge, o: string, l: string, was: seq<Selected>, now: seq<Selected>, list: seq<nat>) {
    |now| == |was| && forall i | i in list ::
      i < |was| && Untouched(was[i]) && (now[i] == was[i] || now[i] == Judged(judge, o, l, was, i))
  }

  method ApplyBatch(ghost judge: Judge, o: string, l: string, ghost was: seq<Selected>, sel: array<Selected>, todo: seq<nat>, r: Batch,
                    found: map<string, Score>) returns (more: map<string, Score>)
    requires Appliable(judge, o, l, was, sel[..], todo)
    requires Answered(judge, o, l, Messages(was), todo, r) && FreshFrom(judge, o, l, found)
    modifies sel
    ensures Progress(judge, o, l, was, old(sel[..]), sel[..], todo)
    ensures FreshFrom(judge, o, l, more) && |more| <= |found| + |todo|
    ensures found.Keys <= more.Keys && Remembered(judge, o, l, was, todo, more)
  {
    more := found;
    ghost var before := sel[..];
    for k := 0 to |todo|
      invariant Progress(judge, o, l, was, before, sel[..], todo[..k])
      invariant FreshFrom(judge, o, l, more) && |more| <= |found| + k
      invariant found.Keys <= more.Keys && Remembered(judge, o, l, was, todo[..k], more)
    {
      var i := todo[k];
      assert i in todo && sel[i] == sel[..][i];
      ProgressStep(judge, o, l, was, before, sel[..], todo[..k], i);
      assert todo[..k + 1] == todo[..k] + [i];
      ghost var known := more;
      more := ApplyAnswer(judge, o, l, was, sel, i, r, more);
      RememberedStep(judge, o, l, was, todo[..k], i, known, more);
    }
    assert todo[..|todo|] == todo;
  }

  /** Applies every batch; the scores found go to the cache. */
  method ApplyBatches(ghost judge: Judge, o: string, l: string, sel: array<Selected>, batches: seq<seq<nat>>, results: seq<Batch>)
    returns (found: map<string, Score>)
    requires |results| == |batches| && forall i | i in Concat(batches) :: i < sel.Length && Untouched(sel[i])
    requires forall b | 0 <= b < |batches| :: Answered(judge, o, l, Messages(sel[..]), batches[b], results[b])
    modifies sel
    ensures Progress(judge, o, l, old(sel[..]), old(sel[..]), sel[..], Concat(batches))
    ensures FreshFrom(judge, o, l, found) && |found| <= |Concat(batches)|
    ensures Remembered(judge, o, l, old(sel[..]), Concat(batches), found)
  {
    found := map[];
    ghost var was := sel[..];
    for b := 0 to |batches|
      invariant Progress(judge, o, l, was, was, sel[..], Concat(batches[..b]))
      invariant FreshFrom(judge, o, l, found) && |found| <= |Concat(batches[..b])|
      invariant Remembered(judge, o, l, was, Concat(batches[..b]), found)
    {
      InSomeBatch(batches, b);
      ghost var now := sel[..];
      found := ApplyBatch(judge, o, l, was, sel, batches[b], results[b], found);
      ProgressChains(judge, o, l, was, now, sel[..], Concat(batches[..b]), batches[b]);
      assert batches[..b + 1][..b] == batches[..b];
    }
    assert batches[..|batches|] == batches;
  }

  lemma ProgressChains(judge: Judge, o: string, l: string, was: seq<Selected>, now: seq<Selected>, next: seq<Selected>, a: seq<nat>, b: seq<nat>)
    requires Progress(judge, o, l, was, was, now, a) && Progress(judge, o, l, was, now, next, b)
    ensures Progress(judge, o, l, was, was, next, a + b)
  {
  }

  /** The oldest uncached messages beyond the ceiling leave the selection; the rest is returned. */
  method DropOldest(sel: array<Selected>, scoreable: seq<nat>) returns (todo: seq<nat>)
    requires Increasing(scoreable, sel.Length)
    modifies sel
    ensures todo == scoreable[|LeftOut(scoreable)|..] && |todo| <= MaxScoreable
    ensures forall i: nat | i < sel.Length ::
              sel[i] == if i in LeftOut(scoreable) then old(sel[i]).(keep := false) else old(sel[i])
  {
    todo := scoreable;
    if |scoreable| > MaxScoreable {
      var over := |scoreable| - MaxScoreable;
      for k := 0 to over
        invariant forall i: nat | i < sel.Length ::
                    sel[i] == if i in scoreable[..k] then old(sel[i]).(keep := false) else old(sel[i])
      {
        sel[scoreable[k]] := sel[scoreable[k]].(keep := false);
      }
      todo := scoreable[over..];
    }
  }

  /** Every message has what the selection makes of it. */
  ghost predicate Selects(judge: Judge, o: string, l: string, was: seq<Selected>, now: seq<Selected>, uncached: seq<nat>) {
    |was| == |now| && forall i: nat | i < |was| :: now[i] == Outcome(judge, o, l, was[i], i in LeftOut(uncached))
  }

  lemma SelectsAll(judge: Judge, o: string, l: string, was: seq<Selected>, looked: seq<Selected>, cut: seq<Selected>, now: seq<Selected>,
                   uncached: seq<nat>, scope: Option<Scope>, entries: map<string, Score>, want: Scope)
    requires Uncached(was, scope, entries, want, uncached)
    requires LookedUp(judge, o, l, was, looked, uncached, |was|) && |cut| == |was|
    requires forall i: nat | i < |was| :: cut[i] == if i in LeftOut(uncached) then looked[i].(keep := false) else looked[i]
    requires Progress(judge, o, l, cut, cut, now, uncached[|LeftOut(uncached)|..])
    ensures Selects(judge, o, l, was, now, uncached)
  {
    var gone := LeftOut(uncached);
    forall i: nat | i < |was|
      ensures now[i] == Outcome(judge, o, l, was[i], i in gone)
    {
      assert gone == uncached[..|gone|];
      assert uncached == gone + uncached[|gone|..];
      assert i in uncached <==> i in gone || i in uncached[|gone|..];
    }
  }

  /** What is left to score is as it came in. */
  lemma TodoIsUntouched(judge: Judge, o: string, l: string, was: seq<Selected>, looked: seq<Selected>, cut: seq<Selected>, uncached: seq<nat>)
    requires Increasing(uncached, |was|) && LookedUp(judge, o, l, was, looked, uncached, |was|) && |cut| == |was|
    requires forall i: nat | i < |was| :: cut[i] == if i in LeftOut(uncached) then looked[i].(keep := false) else looked[i]
    ensures forall i | i in uncached[|LeftOut(uncached)|..] :: i < |was| && cut[i] == was[i]
  {
    var gone := |LeftOut(uncached)|;
    forall i | i in uncached[gone..]
      ensures i < |was| && cut[i] == was[i]
    {
      var a :| gone <= a < |uncached| && uncached[a] == i;
      assert i !in uncached[..gone];
    }
  }

  lemma StillRemembered(judge: Judge, o: string, l: string, was: seq<Selected>, cut: seq<Selected>, list: seq<nat>,
                        found: map<string, Score>, all: map<string, Score>)
    requires Remembered(judge, o, l, cut, list, found) && found.Keys <= all.Keys
    requires |cut| == |was| && forall i | i in list :: i < |was| && cut[i] == was[i]
    ensures Remembered(judge, o, l, was, list, all)
  {
    forall i | i in list
      ensures Verdict(judge, o, l, was[i].msg).scored ==> Key(was[i].msg.role, was[i].msg.content) in all
    {
      assert cut[i] == was[i];
    }
  }

  /** Batches, calls and answers for the messages still to be scored. */
  method AskJudge(judge: Judge, o: string, l: string, sel: array<Selected>, todo: seq<nat>, backend: Backend)
    returns (ok: bool, found: map<string, Score>)
    requires forall i | i in todo :: i < sel.Length && Untouched(sel[i])
    modifies sel
    ensures ok <==> backend.Succeeds(BatchCount(|todo|))
    ensures ok ==> Progress(judge, o, l, old(sel[..]), old(sel[..]), sel[..], todo)
    ensures ok ==> FreshFrom(judge, o, l, found) && |found| <= |todo|
    ensures ok ==> Remembered(judge, o, l, old(sel[..]), todo, found)
  {
    found := map[];
    var transcript := Messages(sel[..]);
    var batches := SplitBatches(todo);
    var results;
    ok, results := RunBatches(judge, o, l, transcript, batches, backend);
    if ok {
      found := ApplyBatches(judge, o, l, sel, batches, results);
    }
  }

  /** scoreSelectedTranscript: a failed or stopped selection leaves the cache as it was. */
  method ScoreSelected(cache: ScoreCache, judge: Judge, o: string, l: string, sel: array<Selected>, backend: Backend)
    returns (ok: bool, ghost uncached: seq<nat>)
    requires cache.Valid(judge) && forall i | 0 <= i < sel.Length :: Untouched(sel[i])
    modifies cache, sel
    ensures cache.Valid(judge)
    ensures !ok ==> cache.scope == old(cache.scope) && cache.entries == old(cache.entries)
    ensures Uncached(old(sel[..]), old(cache.scope), old(cache.entries), ScopeOf(o, l), uncached)
    ensures ok <==> backend.Succeeds(BatchCount(|uncached| - |LeftOut(uncached)|))
    ensures ok ==> Selects(judge, o, l, old(sel[..]), sel[..], uncached)
    ensures ok ==> cache.scope == Some(ScopeOf(o, l))
    ensures ok ==> Remembered(judge, o, l, old(sel[..]), uncached[|LeftOut(uncached)|..], cache.entries)
  {
    ghost var was, scope, entries := sel[..], cache.scope, cache.entries;
    var scoreable := ApplyCached(cache, judge, o, l, sel);
    uncached := scoreable;
    ghost var looked := sel[..];
    var todo := DropOldest(sel, scoreable);
    ghost var cut := sel[..];
    TodoIsUntouched(judge, o, l, was, looked, cut, uncached);
    var found;
    ok, found := AskJudge(judge, o, l, sel, todo, backend);
    if ok {
      SelectsAll(judge, o, l, was, looked, cut, sel[..], uncached, scope, entries, ScopeOf(o, l));
      cache.Store(judge, o, l, found);
      StillRemembered(judge, o, l, was, cut, todo, found, cache.entries);
    }
  }

  function Kept(sel: seq<Selected>): seq<Selected> {
    if sel == [] then []
    else Kept(sel[..|sel| - 1]) + if sel[|sel| - 1].keep then [sel[|sel| - 1]] else []
  }

  function Entering(transcript: seq<Message>, origIdx: Option<nat>, lastIdx: Option<nat>): (sel: seq<Selected>)
    ensures |sel| == |transcript|
  {
    seq(|transcript|, i requires 0 <= i < |transcript| =>
      Selected(transcript[i], Some(i) == origIdx || Some(i) == lastIdx, true, false, 0.0))
  }

  function ContentAt(transcript: seq<Message>, i: Option<nat>): string
    requires i.Some? ==> i.value < |transcript|
  {
    if i.Some? then transcript[i.value].content else ""
  }

  /** What a judge's scores select, given the messages left out. */
  ghost predicate SelectionOf(judge: Judge, transcript: seq<Message>, origIdx: Option<nat>, lastIdx: Option<nat>,
                              uncached: seq<nat>, kept: seq<Selected>)
    requires (origIdx.Some? ==> origIdx.value < |transcript|) && (lastIdx.Some? ==> lastIdx.value < |transcript|)
  {
    exists now :: kept == Kept(now) &&
      Selects(judge, ContentAt(transcript, origIdx), ContentAt(transcript, lastIdx), Entering(transcript, origIdx, lastIdx), now, uncached)
  }

  /** What a chosen message carries: pinned ones are not scored, the others have the judge's score, if it gave one. */
  predicate ChosenAs(judge: Judge, o: string, l: string, m: Message, pinned: bool, s: Selected) {
    && s.msg == m && s.keep && s.pinned == pinned
    && if pinned then !s.scored
       else match judge(Trim(o), Trim(l), m.role, Trim(m.content))
            case None => !s.scored
            case Some(noul) => s.scored && s.score == noul
  }

  /** The judge does not refuse the message. */
  predicate Wanted(judge: Judge, o: string, l: string, m: Message) {
    match judge(Trim(o), Trim(l), m.role, Trim(m.content))
    case None => true
    case Some(noul) => noul >= 0.5
  }

  /**
    The kept messages, by their places in the transcript: the original request and the
    last reply, pinned, and every other message that is wanted and is not among the oldest
    of the uncached ones beyond 160.
  */
  ghost predicate Chosen(judge: Judge, transcript: seq<Message>, origIdx: Option<nat>, lastIdx: Option<nat>, uncached: seq<nat>,
                         kept: seq<Selected>, at: seq<nat>)
    requires (origIdx.Some? ==> origIdx.value < |transcript|) && (lastIdx.Some? ==> lastIdx.value < |transcript|)
  {
    var o := if origIdx.Some? then transcript[origIdx.value].content else "";
    var l := if lastIdx.Some? then transcript[lastIdx.value].content else "";
    var gone := if |uncached| > 160 then uncached[..|uncached| - 160] else [];
    && Increasing(at, |transcript|) && |at| == |kept|
    && (forall a | 0 <= a < |at| ::
          ChosenAs(judge, o, l, transcript[at[a]], Some(at[a]) == origIdx || Some(at[a]) == lastIdx, kept[a]))
    && (forall i: nat | i < |transcript| ::
          i in at <==> Some(i) == origIdx || Some(i) == lastIdx || (i !in gone && Wanted(judge, o, l, transcript[i])))
  }

  /** The places of the kept messages. */
  ghost function KeptAt(sel: seq<Selected>): (at: seq<nat>)
    ensures Increasing(at, |sel|) && forall i: nat | i < |sel| :: i in at <==> sel[i].keep
  {
    if sel == [] then []
    else
      var n := |sel| - 1;
      var init := KeptAt(sel[..n]);
      if sel[n].keep then init + [n] else init
  }

  lemma {:induction false} KeptAre(sel: seq<Selected>)
    ensures |Kept(sel)| == |KeptAt(sel)| && forall a | 0 <= a < |KeptAt(sel)| :: Kept(sel)[a] == sel[KeptAt(sel)[a]]
  {
    if sel != [] {
      KeptAre(sel[..|sel| - 1]);
    }
  }

  lemma OutcomeIsChosen(judge: Judge, o: string, l: string, m: Message, pinned: bool, leftOut: bool)
    ensures var s := Outcome(judge, o, l, Selected(m, pinned, true, false, 0.0), leftOut);
            && (s.keep <==> pinned || (!leftOut && Wanted(judge, o, l, m)))
            && (s.keep ==> ChosenAs(judge, o, l, m, pinned, s))
  {
  }

  lemma SelectedIsChosen(judge: Judge, transcript: seq<Message>, origIdx: Option<nat>, lastIdx: Option<nat>, uncached: seq<nat>,
                         now: seq<Selected>)
    requires (origIdx.Some? ==> origIdx.value < |transcript|) && (lastIdx.Some? ==> lastIdx.value < |transcript|)
    requires Selects(judge, ContentAt(transcript, origIdx), ContentAt(transcript, lastIdx), Entering(transcript, origIdx, lastIdx), now, uncached)
    ensures Chosen(judge, transcript, origIdx, lastIdx, uncached, Kept(now), KeptAt(now))
  {
    var o, l, at := ContentAt(transcript, origIdx), ContentAt(transcript, lastIdx), KeptAt(now);
    KeptAre(now);
    forall i: nat | i < |transcript|
      ensures var pinned := Some(i) == origIdx || Some(i) == lastIdx;
              && (now[i].keep <==> pinned || (i !in LeftOut(uncached) && Wanted(judge, o, l, transcript[i])))
              && (now[i].keep ==> ChosenAs(judge, o, l, transcript[i], pinned, now[i]))
    {
      OutcomeIsChosen(judge, o, l, transcript[i], Some(i) == origIdx || Some(i) == lastIdx, i in LeftOut(uncached));
    }
    forall a | 0 <= a < |at|
      ensures ChosenAs(judge, o, l, transcript[at[a]], Some(at[a]) == origIdx || Some(at[a]) == lastIdx, Kept(now)[a])
    {
      assert at[a] in at && now[at[a]].keep;
    }
  }

  /** The messages still kept, in order. */
  method Collect(sel: array<Selected>) returns (out: seq<Selected>)
    ensures out == Kept(sel[..])
  {
    out := [];
    for i := 0 to sel.Length
      invariant out == Kept(sel[..i])
    {
      assert sel[..i + 1][..i] == sel[..i];
      if sel[i].keep {
        out := out + [sel[i]];
      }
    }
    assert sel[..sel.Length] == sel[..];
  }

  /** A chain over the cap is scored. */
  method SelectLong(cache: ScoreCache, judge: Judge, transcript: seq<Message>, origIdx: Option<nat>, lastIdx: Option<nat>,
                    backend: Backend)
    returns (kept: Option<seq<Selected>>, ghost uncached: seq<nat>)
    requires (origIdx.Some? ==> origIdx.value < |transcript|) && (lastIdx.Some? ==> lastIdx.value < |transcript|)
    requires cache.Valid(judge) && forall i | 0 <= i < |transcript| :: NulFree(transcript[i].role)
    modifies cache
    ensures cache.Valid(judge)
    ensures kept.None? ==> cache.scope == old(cache.scope) && cache.entries == old(cache.entries)
    ensures Uncached(Entering(transcript, origIdx, lastIdx), old(cache.scope), old(cache.entries),
                     ScopeOf(ContentAt(transcript, origIdx), ContentAt(transcript, lastIdx)), uncached)
    ensures kept.Some? <==> backend.Succeeds(BatchCount(|uncached| - |LeftOut(uncached)|))
    ensures kept.Some? ==> SelectionOf(judge, transcript, origIdx, lastIdx, uncached, kept.value)
  {
    var entering := Entering(transcript, origIdx, lastIdx);
    var sel := new Selected[|entering|](i requires 0 <= i < |entering| => entering[i]);
    assert sel[..] == entering;
    var ok;
    ok, uncached := ScoreSelected(cache, judge, ContentAt(transcript, origIdx), ContentAt(transcript, lastIdx), sel, backend);
    if !ok {
      return None, uncached;
    }
    var out := Collect(sel);
    kept := Some(out);
  }

  lemma SelectionIsChosen(judge: Judge, transcript: seq<Message>, origIdx: Option<nat>, lastIdx: Option<nat>, uncached: seq<nat>,
                          kept: seq<Selected>)
    requires (origIdx.Some? ==> origIdx.value < |transcript|) && (lastIdx.Some? ==> lastIdx.value < |transcript|)
    requires SelectionOf(judge, transcript, origIdx, lastIdx, uncached, kept)
    ensures exists at :: Chosen(judge, transcript, origIdx, lastIdx, uncached, kept, at)
  {
    var now :| kept == Kept(now) &&
      Selects(judge, ContentAt(transcript, origIdx), ContentAt(transcript, lastIdx), Entering(transcript, origIdx, lastIdx), now, uncached);
    SelectedIsChosen(judge, transcript, origIdx, lastIdx, uncached, now);
  }

  /** selectTypesafeTranscript: None is the selection error. */
  method SelectTranscript(cache: ScoreCache, judge: Judge, transcript: seq<Message>, origIdx: Option<nat>, lastIdx: Option<nat>,
                          backend: Backend)
    returns (kept: Option<seq<Selected>>, ghost uncached: seq<nat>)
    requires (origIdx.Some? ==> origIdx.value < |transcript|) && (lastIdx.Some? ==> lastIdx.value < |transcript|)
    requires cache.Valid(judge) && forall i | 0 <= i < |transcript| :: NulFree(transcript[i].role)
    modifies cache
    ensures cache.Valid(judge)
    ensures |transcript| <= TranscriptCap || kept.None? ==> cache.scope == old(cache.scope) && cache.entries == old(cache.entries)
    ensures |transcript| <= 20 ==>
              && kept.Some? && |kept.value| == |transcript|
              && forall i | 0 <= i < |transcript| ::
                   kept.value[i] == Selected(transcript[i], Some(i) == origIdx || Some(i) == lastIdx, true, false, 0.0)
    ensures Uncached(Entering(transcript, origIdx, lastIdx), old(cache.scope), old(cache.entries),
                     ScopeOf(ContentAt(transcript, origIdx), ContentAt(transcript, lastIdx)), uncached)
            || |transcript| <= TranscriptCap
    ensures |transcript| > TranscriptCap ==> (kept.Some? <==> backend.Succeeds(BatchCount(|uncached| - |LeftOut(uncached)|)))
    ensures |transcript| > TranscriptCap && kept.Some? ==> SelectionOf(judge, transcript, origIdx, lastIdx, uncached, kept.value)
    ensures |transcript| > 20 && kept.Some? ==>
              exists at :: Chosen(judge, transcript, origIdx, lastIdx, uncached, kept.value, at)
  {
    if |transcript| <= TranscriptCap {
      var entering := Entering(transcript, origIdx, lastIdx);
      AllKept(entering);
      return Some(Kept(entering)), [];
    }
    kept, uncached := SelectLong(cache, judge, transcript, origIdx, lastIdx, backend);
    if kept.Some? {
      SelectionIsChosen(judge, transcript, origIdx, lastIdx, uncached, kept.value);
    }
  }

  lemma {:induction false} AllKept(sel: seq<Selected>)
    requires forall i | 0 <= i < |sel| :: sel[i].keep
    ensures Kept(sel) == sel
  {
    if sel != [] {
      AllKept(sel[..|sel| - 1]);
      assert sel == sel[..|sel| - 1] + [sel[|sel| - 1]];
    }
  }

  // ----- Warm and cold selections

  lemma {:induction false} IncreasingCount(list: seq<nat>, n: nat)
    requires Increasing(list, n)
    ensures |ToSet(list)| == |list|
  {
    if list != [] {
      var init, last := list[..|list| - 1], list[|list| - 1];
      IncreasingCount(init, n);
      assert list == init + [last];
      assert ToSet(list) == ToSet(init) + {last};
      assert last !in init;
    }
  }

  /** In increasing lists, a sublist has no more elements from any shared element on. */
  lemma FewerAfter(warm: seq<nat>, cold: seq<nat>, n: nat, p: nat, q: nat)
    requires Increasing(warm, n) && Increasing(cold, n) && forall i | i in warm :: i in cold
    requires p < |warm| && q < |cold| && warm[p] == cold[q]
    ensures |warm| - p <= |cold| - q
  {
    var w, c := warm[p..], cold[q..];
    forall i | i in w
      ensures i in c
    {
      var a :| p <= a < |warm| && warm[a] == i;
      assert warm[a] in cold;
      var b :| 0 <= b < |cold| && cold[b] == i;
      assert b >= q;
      assert c[b - q] == i;
    }
    IncreasingCount(w, n);
    IncreasingCount(c, n);
    SubsetCount(ToSet(w), ToSet(c));
  }

  /** A cache never costs a message its place: what a warm selection leaves out, a cold one leaves out too. */
  lemma WarmLeavesOutNoMore(sel: seq<Selected>, scope: Option<Scope>, entries: map<string, Score>, want: Scope, warm: seq<nat>, cold: seq<nat>)
    requires Uncached(sel, scope, entries, want, warm) && Uncached(sel, None, map[], want, cold)
    ensures forall i | i in LeftOut(warm) :: i in LeftOut(cold)
  {
    assert forall i | i in warm :: i in cold;
    forall i | i in LeftOut(warm)
      ensures i in LeftOut(cold)
    {
      var p :| 0 <= p < |LeftOut(warm)| && LeftOut(warm)[p] == i;
      assert warm[p] in cold;
      var q :| 0 <= q < |cold| && cold[q] == i;
      FewerAfter(warm, cold, |sel|, p, q);
      assert cold[..|cold| - MaxScoreable][q] == i;
    }
  }

  /** Under the ceiling the cache makes no difference at all. */
  lemma WarmEqualsCold(judge: Judge, o: string, l: string, sel: seq<Selected>, scope: Option<Scope>, entries: map<string, Score>,
                       warm: seq<nat>, cold: seq<nat>, now: seq<Selected>, other: seq<Selected>)
    requires Uncached(sel, scope, entries, ScopeOf(o, l), warm) && Uncached(sel, None, map[], ScopeOf(o, l), cold)
    requires Selects(judge, o, l, sel, now, warm) && Selects(judge, o, l, sel, other, cold)
    ensures |cold| <= MaxScoreable ==> now == other
    ensures forall i: nat | i < |sel| && i !in LeftOut(cold) :: now[i] == other[i]
  {
    WarmLeavesOutNoMore(sel, scope, entries, ScopeOf(o, l), warm, cold);
  }
}
