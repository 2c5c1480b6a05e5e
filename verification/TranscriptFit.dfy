/**
  fitTypesafeTranscript (internal/agent/autocontinue_select_typesafe.go): the lowest
  scored messages are dropped until the state fits. A binary search over the number
  dropped replaces the loop that drops one message at a time.
*/
module TranscriptFit {
  import opened Wrappers
  import opened Selection

  /** Pinned and unscored messages are never dropped. */
  predicate Droppable(s: Selected) {
    !s.pinned && s.scored
  }

  /** Lower scores go first, earlier messages first on ties. */
  predicate Before(kept: seq<Selected>, i: nat, j: nat)
    requires i < |kept| && j < |kept|
  {
    kept[i].score < kept[j].score || (kept[i].score == kept[j].score && i < j)
  }

  /** Valid indices, each before the next. */
  ghost predicate SortedBy(kept: seq<Selected>, list: seq<nat>, bound: nat) {
    && bound <= |kept|
    && (forall a | 0 <= a < |list| :: list[a] < bound)
    && (forall a, b | 0 <= a < b < |list| :: Before(kept, list[a], list[b]))
  }

  /** The drop order: every droppable index, lowest first. */
  ghost predicate DropOrder(kept: seq<Selected>, order: seq<nat>) {
    SortedBy(kept, order, |kept|) && forall i: nat | i < |kept| :: i in order <==> Droppable(kept[i])
  }

  /** Stable insertion into a list sorted by score. */
  function InsertStable(kept: seq<Selected>, sorted: seq<nat>, i: nat): (r: seq<nat>)
    requires i < |kept| && forall a | 0 <= a < |sorted| :: sorted[a] < |kept|
    ensures forall j :: j in r <==> j in sorted || j == i
  {
    if sorted != [] && kept[i].score < kept[sorted[|sorted| - 1]].score
    then InsertStable(kept, sorted[..|sorted| - 1], i) + [sorted[|sorted| - 1]]
    else sorted + [i]
  }

  lemma {:induction false} InsertKeepsOrder(kept: seq<Selected>, sorted: seq<nat>, i: nat)
    requires i < |kept| && SortedBy(kept, sorted, i)
    ensures SortedBy(kept, InsertStable(kept, sorted, i), i + 1)
  {
    var r := InsertStable(kept, sorted, i);
    forall a | 0 <= a < |r|
      ensures r[a] < i + 1
    {
      assert r[a] in r;
    }
    if sorted != [] {
      var init, last := sorted[..|sorted| - 1], sorted[|sorted| - 1];
      if kept[i].score < kept[last].score {
        InsertKeepsOrder(kept, init, i);
        LastStaysLast(kept, InsertStable(kept, init, i), init, i, last);
      } else {
        forall a | 0 <= a < |sorted|
          ensures Before(kept, sorted[a], i)
        {
          assert a == |sorted| - 1 || Before(kept, sorted[a], last);
        }
      }
    }
  }

  lemma LastStaysLast(kept: seq<Selected>, r: seq<nat>, init: seq<nat>, i: nat, last: nat)
    requires i < |kept| && last < i && SortedBy(kept, init + [last], i) && SortedBy(kept, r, i + 1)
    requires kept[i].score < kept[last].score && forall j | j in r :: j in init || j == i
    ensures SortedBy(kept, r + [last], i + 1)
  {
    forall a | 0 <= a < |r|
      ensures Before(kept, r[a], last)
    {
      assert r[a] in r;
      if r[a] != i {
        var b :| 0 <= b < |init| && init[b] == r[a];
        assert Before(kept, (init + [last])[b], (init + [last])[|init|]);
      }
    }
  }

  /** sort.SliceStable by score, over the droppable indices below n. */
  function StableOrder(kept: seq<Selected>, n: nat): (order: seq<nat>)
    requires n <= |kept|
    ensures forall a | 0 <= a < |order| :: order[a] < n
    ensures forall i: nat | i < n :: i in order <==> Droppable(kept[i])
  {
    if n == 0 then []
    else
      var order := StableOrder(kept, n - 1);
      if Droppable(kept[n - 1]) then
        var r := InsertStable(kept, order, n - 1);
        assert forall a | 0 <= a < |r| :: r[a] in r;
        r
      else order
  }

  lemma SortedBelowMore(kept: seq<Selected>, list: seq<nat>, bound: nat)
    requires SortedBy(kept, list, bound) && bound < |kept|
    ensures SortedBy(kept, list, bound + 1)
  {
  }

  lemma StableOrderStep(kept: seq<Selected>, n: nat)
    requires n < |kept|
    ensures StableOrder(kept, n + 1) == if Droppable(kept[n]) then InsertStable(kept, StableOrder(kept, n), n) else StableOrder(kept, n)
  {
  }

  lemma StepSorts(kept: seq<Selected>, order: seq<nat>, next: seq<nat>, n: nat)
    requires n < |kept| && SortedBy(kept, order, n)
    requires next == if Droppable(kept[n]) then InsertStable(kept, order, n) else order
    ensures SortedBy(kept, next, n + 1)
  {
    if Droppable(kept[n]) {
      InsertKeepsOrder(kept, order, n);
    } else {
      SortedBelowMore(kept, order, n);
    }
  }

  lemma {:induction false} StableOrderSorts(kept: seq<Selected>, n: nat)
    requires n <= |kept|
    ensures SortedBy(kept, StableOrder(kept, n), n)
  {
    if n > 0 {
      var m: nat := n - 1;
      StableOrderSorts(kept, m);
      StableOrderStep(kept, m);
      StepSorts(kept, StableOrder(kept, m), StableOrder(kept, m + 1), m);
    }
  }

  /** The order in which messages are dropped. */
  function Order(kept: seq<Selected>): (order: seq<nat>)
    ensures forall a | 0 <= a < |order| :: order[a] < |kept|
  {
    StableOrder(kept, |kept|)
  }

  lemma OrderIsDropOrder(kept: seq<Selected>)
    ensures DropOrder(kept, Order(kept))
  {
    StableOrderSorts(kept, |kept|);
  }

  /** The messages not dropped, in order. */
  function Without(kept: seq<Selected>, gone: set<nat>): seq<Message> {
    if kept == [] then []
    else Without(kept[..|kept| - 1], gone) + if |kept| - 1 in gone then [] else [kept[|kept| - 1].msg]
  }

  /** The positions that stay. */
  function Staying(n: nat, gone: set<nat>): (r: seq<nat>)
    ensures Increasing(r, n) && forall i: nat | i < n :: i in r <==> i !in gone
  {
    if n == 0 then [] else Staying(n - 1, gone) + if n - 1 in gone then [] else [n - 1]
  }

  /** The messages are those at the positions. */
  ghost predicate TakenAt(kept: seq<Selected>, msgs: seq<Message>, at: seq<nat>) {
    |msgs| == |at| && forall a | 0 <= a < |at| :: at[a] < |kept| && msgs[a] == kept[at[a]].msg
  }

  lemma TakenAtMore(kept: seq<Selected>, msgs: seq<Message>, at: seq<nat>, stays: bool)
    requires kept != [] && TakenAt(kept[..|kept| - 1], msgs, at)
    ensures TakenAt(kept, msgs + (if stays then [kept[|kept| - 1].msg] else []), at + if stays then [|kept| - 1] else [])
  {
  }

  /** The result is the subsequence of the messages that stay, in their original order. */
  lemma {:induction false} WithoutIsSubsequence(kept: seq<Selected>, gone: set<nat>)
    ensures TakenAt(kept, Without(kept, gone), Staying(|kept|, gone))
  {
    if kept != [] {
      var n := |kept| - 1;
      WithoutIsSubsequence(kept[..n], gone);
      TakenAtMore(kept, Without(kept[..n], gone), Staying(n, gone), n !in gone);
    }
  }

  /** Pinned and unscored messages stay, however many are dropped. */
  lemma UndroppableStay(kept: seq<Selected>, order: seq<nat>, k: nat, i: nat)
    requires DropOrder(kept, order) && k <= |order| && i < |kept| && !Droppable(kept[i])
    ensures i in Staying(|kept|, ToSet(order[..k]))
  {
    assert i !in order;
    assert forall j | j in order[..k] :: j in order;
  }

  /** The messages that are never dropped. */
  function Fixed(kept: seq<Selected>): seq<Message> {
    if kept == [] then []
    else
      var last := kept[|kept| - 1];
      Fixed(kept[..|kept| - 1]) + if last.pinned || !last.scored then [last.msg] else []
  }

  lemma {:induction false} AllDropped(kept: seq<Selected>, gone: set<nat>)
    requires forall i: nat | i < |kept| :: i in gone <==> Droppable(kept[i])
    ensures Without(kept, gone) == Fixed(kept)
  {
    if kept != [] {
      AllDropped(kept[..|kept| - 1], gone);
    }
  }

  lemma OrderDropsAll(kept: seq<Selected>, order: seq<nat>)
    requires DropOrder(kept, order)
    ensures Without(kept, ToSet(order[..|order|])) == Fixed(kept)
  {
    assert order[..|order|] == order;
    AllDropped(kept, ToSet(order));
  }

  lemma SentWhole(kept: seq<Selected>, order: seq<nat>, k: nat, i: nat)
    requires DropOrder(kept, order) && k <= |order| && i < |kept| && (kept[i].pinned || !kept[i].scored)
    ensures kept[i].msg in Without(kept, ToSet(order[..k]))
  {
    var gone := ToSet(order[..k]);
    UndroppableStay(kept, order, k, i);
    WithoutIsSubsequence(kept, gone);
    var a :| 0 <= a < |Staying(|kept|, gone)| && Staying(|kept|, gone)[a] == i;
    assert Without(kept, gone)[a] == kept[i].msg;
  }

  method DropFirst(kept: seq<Selected>, order: seq<nat>, k: nat) returns (tail: seq<Message>)
    requires k <= |order|
    ensures tail == Without(kept, ToSet(order[..k]))
  {
    var gone: set<nat> := {};
    for a := 0 to k
      invariant gone == ToSet(order[..a])
    {
      assert order[..a + 1] == order[..a] + [order[a]];
      gone := gone + {order[a]};
    }
    tail := [];
    for i := 0 to |kept|
      invariant tail == Without(kept[..i], gone)
    {
      assert kept[..i + 1][..i] == kept[..i];
      if i !in gone {
        tail := tail + [kept[i].msg];
      }
    }
    assert kept[..|kept|] == kept;
  }

  /** Whether a transcript fits the budget; None when its state cannot be marshalled. */
  type Sizer = seq<Message> -> Option<bool>

  function FitsAt(fits: Sizer, kept: seq<Selected>, order: seq<nat>, k: nat): Option<bool>
    requires k <= |order|
  {
    fits(Without(kept, ToSet(order[..k])))
  }

  /** Dropping more never grows the state, and every state can be marshalled. */
  ghost predicate Monotone(fits: Sizer, kept: seq<Selected>, order: seq<nat>) {
    && (forall k: nat | k <= |order| :: FitsAt(fits, kept, order, k).Some?)
    && (forall j: nat, k: nat | j <= k <= |order| && FitsAt(fits, kept, order, j) == Some(true) ::
          FitsAt(fits, kept, order, k) == Some(true))
  }

  /** The least number of drops that fits, or all of them. */
  ghost predicate LeastFit(fits: Sizer, kept: seq<Selected>, order: seq<nat>, k: nat) {
    && k <= |order|
    && (k < |order| ==> FitsAt(fits, kept, order, k) == Some(true))
    && forall j: nat | j < k :: FitsAt(fits, kept, order, j) != Some(true)
  }

  // ----- The loop that the search replaces

  /** The droppable message still there with the lowest score, the earliest on ties. */
  function Lowest(kept: seq<Selected>, gone: set<nat>, n: nat): (r: Option<nat>)
    requires n <= |kept|
    ensures r.Some? ==> r.value < n && Droppable(kept[r.value]) && r.value !in gone
                        && forall i: nat | i < n && Droppable(kept[i]) && i !in gone :: i == r.value || Before(kept, r.value, i)
    ensures r.None? ==> forall i: nat | i < n && Droppable(kept[i]) :: i in gone
  {
    if n == 0 then None
    else
      var r := Lowest(kept, gone, n - 1);
      if !Droppable(kept[n - 1]) || n - 1 in gone then r
      else if r.None? || kept[n - 1].score < kept[r.value].score then Some(n - 1)
      else r
  }

  /** Greedy: while the state does not fit, drop the lowest. */
  function Greedy(kept: seq<Selected>, fits: Sizer, gone: set<nat>): seq<Message>
    decreases |Left(kept, gone)|
  {
    if fits(Without(kept, gone)) == Some(true) then Without(kept, gone)
    else
      var r := Lowest(kept, gone, |kept|);
      if r.None? then Without(kept, gone)
      else
        assert Left(kept, gone + {r.value}) == Left(kept, gone) - {r.value};
        Greedy(kept, fits, gone + {r.value})
  }

  /** The droppable indices still there. */
  function Left(kept: seq<Selected>, gone: set<nat>): set<nat> {
    set i: nat | i < |kept| && Droppable(kept[i]) && i !in gone
  }

  lemma NotYetGone(kept: seq<Selected>, order: seq<nat>, k: nat, b: nat)
    requires DropOrder(kept, order) && k <= |order| && b < |order|
    ensures order[b] in ToSet(order[..k]) <==> b < k
  {
    if b < k {
      assert order[..k][b] == order[b];
    } else {
      forall a | 0 <= a < k
        ensures order[..k][a] != order[b]
      {
        assert Before(kept, order[a], order[b]);
      }
    }
  }

  lemma LowestIsNext(kept: seq<Selected>, order: seq<nat>, k: nat, v: nat)
    requires DropOrder(kept, order) && k < |order| && v < |kept| && Droppable(kept[v]) && v !in ToSet(order[..k])
    requires order[k] < |kept| && (order[k] == v || Before(kept, v, order[k]))
    ensures v == order[k]
  {
    var b :| 0 <= b < |order| && order[b] == v;
    NotYetGone(kept, order, k, b);
    assert b > k ==> Before(kept, order[k], order[b]);
  }

  /** Greedy takes the messages in the drop order. */
  lemma NextLowest(kept: seq<Selected>, order: seq<nat>, k: nat)
    requires DropOrder(kept, order) && k <= |order|
    ensures Lowest(kept, ToSet(order[..k]), |kept|) == if k < |order| then Some(order[k]) else None
  {
    var r := Lowest(kept, ToSet(order[..k]), |kept|);
    if k < |order| {
      NotYetGone(kept, order, k, k);
      assert order[k] in order;
      LowestIsNext(kept, order, k, r.value);
    } else {
      assert order[..k] == order;
    }
  }

  lemma {:induction false} GreedyFrom(kept: seq<Selected>, fits: Sizer, order: seq<nat>, drops: nat, k: nat)
    requires DropOrder(kept, order) && LeastFit(fits, kept, order, drops) && k <= drops
    ensures Greedy(kept, fits, ToSet(order[..k])) == Without(kept, ToSet(order[..drops]))
    decreases drops - k
  {
    NextLowest(kept, order, k);
    if k < drops {
      assert FitsAt(fits, kept, order, k) != Some(true);
      assert order[..k + 1] == order[..k] + [order[k]];
      assert ToSet(order[..k + 1]) == ToSet(order[..k]) + {order[k]};
      GreedyFrom(kept, fits, order, drops, k + 1);
    }
  }

  /** When dropping never hurts, the search returns what the loop would have returned. */
  lemma SearchEqualsGreedy(kept: seq<Selected>, fits: Sizer, order: seq<nat>, drops: nat)
    requires DropOrder(kept, order) && LeastFit(fits, kept, order, drops)
    ensures Greedy(kept, fits, {}) == Without(kept, ToSet(order[..drops]))
  {
    assert ToSet(order[..0]) == {};
    GreedyFrom(kept, fits, order, drops, 0);
  }

  // ----- The search

  /** The binary search, over any test. */
  function Search(test: nat -> bool, lo: nat, hi: nat): (k: nat)
    requires lo <= hi
    ensures lo <= k <= hi && (k < hi ==> test(k))
    decreases hi - lo
  {
    if lo == hi then lo
    else
      var mid := lo + (hi - lo) / 2;
      if test(mid) then Search(test, lo, mid) else Search(test, mid + 1, hi)
  }

  /** Whether k drops fit. */
  function Test(fits: Sizer, kept: seq<Selected>): nat -> bool {
    (k: nat) => k <= |Order(kept)| && FitsAt(fits, kept, Order(kept), k) == Some(true)
  }

  /** The test passes from first on, up to n. */
  ghost predicate PassesFrom(test: nat -> bool, first: nat, n: nat) {
    first <= n && forall k: nat | k < n :: test(k) <==> first <= k
  }

  lemma {:induction false} SearchFindsFirst(test: nat -> bool, first: nat, n: nat, lo: nat, hi: nat)
    requires PassesFrom(test, first, n) && lo <= first <= hi <= n
    ensures Search(test, lo, hi) == first
    decreases hi - lo
  {
    if lo < hi {
      var mid := lo + (hi - lo) / 2;
      if test(mid) {
        SearchFindsFirst(test, first, n, lo, mid);
      } else {
        SearchFindsFirst(test, first, n, mid + 1, hi);
      }
    }
  }

  lemma {:induction false} FirstPass(test: nat -> bool, n: nat) returns (first: nat)
    requires forall j: nat, k: nat | j <= k < n && test(j) :: test(k)
    ensures PassesFrom(test, first, n)
  {
    if n == 0 || !test(n - 1) {
      first := n;
    } else {
      first := FirstPass(test, n - 1);
    }
  }

  lemma TestStays(fits: Sizer, kept: seq<Selected>)
    requires Monotone(fits, kept, Order(kept))
    ensures forall j: nat, k: nat | j <= k < |Order(kept)| && Test(fits, kept)(j) :: Test(fits, kept)(k)
  {
    forall j: nat, k: nat | j <= k < |Order(kept)| && Test(fits, kept)(j)
      ensures Test(fits, kept)(k)
    {
      assert FitsAt(fits, kept, Order(kept), j) == Some(true);
    }
  }

  /** Under the premise the search finds the least number of drops that fits. */
  lemma SearchIsLeast(fits: Sizer, kept: seq<Selected>)
    requires Monotone(fits, kept, Order(kept))
    ensures LeastFit(fits, kept, Order(kept), Search(Test(fits, kept), 0, |Order(kept)|))
  {
    var test, n := Test(fits, kept), |Order(kept)|;
    TestStays(fits, kept);
    var first := FirstPass(test, n);
    SearchFindsFirst(test, first, n, 0, n);
    forall j: nat | j < first
      ensures FitsAt(fits, kept, Order(kept), j) != Some(true)
    {
      assert !test(j);
    }
  }

  /** The search loop; None when some state cannot be marshalled. */
  method FindDrops(kept: seq<Selected>, fits: Sizer, order: seq<nat>) returns (k: Option<nat>)
    requires order == Order(kept)
    ensures k.Some? ==> k.value == Search(Test(fits, kept), 0, |order|)
    ensures k.None? ==> exists j: nat :: j < |order| && FitsAt(fits, kept, order, j).None?
  {
    var lo, hi := 0, |order|;
    while lo < hi
      invariant 0 <= lo <= hi <= |order|
      invariant Search(Test(fits, kept), 0, |order|) == Search(Test(fits, kept), lo, hi)
    {
      var mid := lo + (hi - lo) / 2;
      var tail := DropFirst(kept, order, mid);
      var ok := fits(tail);
      assert ok == FitsAt(fits, kept, order, mid);
      if ok.None? {
        return None;
      }
      if ok.value {
        hi := mid;
      } else {
        lo := mid + 1;
      }
    }
    k := Some(lo);
  }

  /**
    fitTypesafeTranscript; None is the marshalling error. Whatever the sizes, the
    result fits or every scored message is gone; when dropping never grows the state
    it is what the greedy loop returns.
  */
  method Fit(kept: seq<Selected>, fits: Sizer) returns (r: Option<seq<Message>>)
    ensures r.Some? ==> var k := Search(Test(fits, kept), 0, |Order(kept)|);
                        r.value == Without(kept, ToSet(Order(kept)[..k])) && (k == |Order(kept)| || fits(r.value) == Some(true))
    ensures r.None? ==> exists k: nat :: k < |Order(kept)| && FitsAt(fits, kept, Order(kept), k).None?
    ensures r.Some? ==> forall i | 0 <= i < |kept| && (kept[i].pinned || !kept[i].scored) :: kept[i].msg in r.value
    ensures r.Some? ==> fits(r.value) == Some(true) || r.value == Fixed(kept)
    ensures Monotone(fits, kept, Order(kept)) ==> r == Some(Greedy(kept, fits, {}))
  {
    var order := Order(kept);
    var drops := FindDrops(kept, fits, order);
    if drops.None? {
      return None;
    }
    var tail := DropFirst(kept, order, drops.value);
    assert drops.value < |order| ==> Test(fits, kept)(drops.value);
    r := Some(tail);
    OrderIsDropOrder(kept);
    OrderDropsAll(kept, order);
    forall i | 0 <= i < |kept| && (kept[i].pinned || !kept[i].scored)
      ensures kept[i].msg in tail
    {
      SentWhole(kept, order, drops.value, i);
    }
    if Monotone(fits, kept, order) {
      SearchIsLeast(fits, kept);
      SearchEqualsGreedy(kept, fits, order, drops.value);
    }
  }

  lemma ChosenRequestIsKept(judge: Judge, transcript: seq<Message>, origIdx: Option<nat>, lastIdx: Option<nat>, uncached: seq<nat>,
                            kept: seq<Selected>, at: seq<nat>, i: nat) returns (a: nat)
    requires (origIdx.Some? ==> origIdx.value < |transcript|) && (lastIdx.Some? ==> lastIdx.value < |transcript|)
    requires Chosen(judge, transcript, origIdx, lastIdx, uncached, kept, at) && i < |transcript| && (Some(i) == origIdx || Some(i) == lastIdx)
    ensures a < |kept| && kept[a].msg == transcript[i] && kept[a].pinned
  {
    assert i in at;
    a :| 0 <= a < |at| && at[a] == i;
    assert ChosenAs(judge, ContentAt(transcript, origIdx), ContentAt(transcript, lastIdx), transcript[i], true, kept[a]);
  }

  /** Both ways of SelectTranscript: the pinned message is among the kept ones. */
  lemma PinnedIsKept(judge: Judge, transcript: seq<Message>, origIdx: Option<nat>, lastIdx: Option<nat>, uncached: seq<nat>,
                     kept: seq<Selected>, i: nat)
    requires (origIdx.Some? ==> origIdx.value < |transcript|) && (lastIdx.Some? ==> lastIdx.value < |transcript|)
    requires i < |transcript| && (Some(i) == origIdx || Some(i) == lastIdx)
    requires if |transcript| <= TranscriptCap
             then |kept| == |transcript| && kept[i] == Selected(transcript[i], true, true, false, 0.0)
             else exists at :: Chosen(judge, transcript, origIdx, lastIdx, uncached, kept, at)
    ensures exists a :: 0 <= a < |kept| && kept[a].msg == transcript[i] && kept[a].pinned
  {
    if |transcript| > TranscriptCap {
      var at :| Chosen(judge, transcript, origIdx, lastIdx, uncached, kept, at);
      var a := ChosenRequestIsKept(judge, transcript, origIdx, lastIdx, uncached, kept, at, i);
    }
  }

  lemma LeftToScore(uncached: seq<nat>)
    ensures |uncached| - |LeftOut(uncached)| == if |uncached| > 160 then 160 else |uncached|
  {
  }

  lemma SomeUnmeasured(fits: Sizer, kept: seq<Selected>)
    requires exists k: nat :: k < |Order(kept)| && FitsAt(fits, kept, Order(kept), k).None?
    ensures exists msgs :: fits(msgs).None?
  {
    var k: nat :| k < |Order(kept)| && FitsAt(fits, kept, Order(kept), k).None?;
    assert fits(Without(kept, ToSet(Order(kept)[..k]))).None?;
  }

  /** A selection under way: chosen and fitted. */
  method FitSelected(judge: Judge, transcript: seq<Message>, origIdx: Option<nat>, lastIdx: Option<nat>, ghost uncached: seq<nat>,
                     kept: seq<Selected>, fits: Sizer) returns (r: Option<seq<Message>>)
    requires (origIdx.Some? ==> origIdx.value < |transcript|) && (lastIdx.Some? ==> lastIdx.value < |transcript|)
    requires if |transcript| <= TranscriptCap
             then |kept| == |transcript| && forall i | 0 <= i < |transcript| ::
                    kept[i] == Selected(transcript[i], Some(i) == origIdx || Some(i) == lastIdx, true, false, 0.0)
             else exists at :: Chosen(judge, transcript, origIdx, lastIdx, uncached, kept, at)
    ensures r.Some? && origIdx.Some? ==> transcript[origIdx.value] in r.value
    ensures r.Some? && lastIdx.Some? ==> transcript[lastIdx.value] in r.value
    ensures r.None? ==> exists msgs :: fits(msgs).None?
  {
    r := Fit(kept, fits);
    if r.None? {
      SomeUnmeasured(fits, kept);
    }
    if r.Some? && origIdx.Some? {
      PinnedIsKept(judge, transcript, origIdx, lastIdx, uncached, kept, origIdx.value);
    }
    if r.Some? && lastIdx.Some? {
      PinnedIsKept(judge, transcript, origIdx, lastIdx, uncached, kept, lastIdx.value);
    }
  }

  /**
    The transcript of a verdict (runAutoContinueJudgeTypesafe): selected, then fitted.
    Whatever is left out, the original request and the last reply are sent.
  */
  method SendTranscript(cache: ScoreCache, judge: Judge, transcript: seq<Message>, origIdx: Option<nat>, lastIdx: Option<nat>,
                        backend: Backend, fits: Sizer)
    returns (r: Option<seq<Message>>, ghost selected: Option<seq<Selected>>, ghost uncached: seq<nat>)
    requires (origIdx.Some? ==> origIdx.value < |transcript|) && (lastIdx.Some? ==> lastIdx.value < |transcript|)
    requires cache.Valid(judge) && forall i | 0 <= i < |transcript| :: NulFree(transcript[i].role)
    modifies cache
    ensures cache.Valid(judge)
    ensures r.Some? && origIdx.Some? ==> transcript[origIdx.value] in r.value
    ensures r.Some? && lastIdx.Some? ==> transcript[lastIdx.value] in r.value
    ensures selected.None? <==> |transcript| > 20 && !backend.Succeeds(BatchCount(if |uncached| > 160 then 160 else |uncached|))
    ensures r.None? ==> selected.None? || exists msgs :: fits(msgs).None?
  {
    var kept;
    kept, uncached := SelectTranscript(cache, judge, transcript, origIdx, lastIdx, backend);
    selected := kept;
    LeftToScore(uncached);
    if kept.None? {
      return None, selected, uncached;
    }
    r := FitSelected(judge, transcript, origIdx, lastIdx, uncached, kept.value, fits);
  }
}
