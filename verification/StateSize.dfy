/**
  The size that fitTypesafeTranscript measures: the marshalled state of
  internal/agent/autocontinue_typesafe.go. Each entry dropped makes the tail smaller,
  but the first one also adds the transcript_selection field, so a drop can make the
  state grow. This module says exactly when that spoils the search.
*/
module StateSize {
  import opened Wrappers
  import opened DispatchKey
  import opened JsonText
  import opened LengthPrefix
  import opened Selection
  import opened TranscriptFit

  const Budget: nat := 96000

  // ----- Bytes

  /** The inside of a JSON string. */
  function TextSize(s: string): nat {
    ByteLen(EscapeAll(s))
  }

  /** What typesafeCapContent leaves of a long text, with its mark. */
  function CappedSize(content: string): nat {
    if |content| <= 4000 then TextSize(content) else TextSize(content[..4000]) + MarkSize
  }

  /** The bytes of the mark, and of an entry and the field around their values. */
  const MarkSize: nat := 14
  const EntryOverhead: nat := 24
  const SelectionOverhead: nat := 62

  lemma OverheadsAreTheTexts()
    ensures |"(truncated)"| + Width('…') == MarkSize
    ensures |"{\"content\":\"\",\"role\":\"\"}"| == EntryOverhead
    ensures |",\"transcript_selection\":{\"chain_messages\":,\"dropped\":,\"sent\":}"| == SelectionOverhead
  {
  }

  function EntrySize(m: Message): nat {
    EntryOverhead + CappedSize(Trim(m.content)) + TextSize(m.role)
  }

  function Total<T>(xs: seq<T>, size: T -> nat): nat {
    if xs == [] then 0 else Total(xs[..|xs| - 1], size) + size(xs[|xs| - 1])
  }

  function EntriesSize(msgs: seq<Message>): nat {
    Total(msgs, EntrySize)
  }

  function Commas(n: nat): nat {
    if n == 0 then 0 else n - 1
  }

  function Digits(n: nat): nat {
    |Itoa(n)|
  }

  /** The field that reports what was left out, with its comma; absent when nothing was. */
  function FieldSize(total: nat, sent: nat): nat
    requires sent <= total
  {
    if sent == total then 0 else SelectionOverhead + Digits(total) + Digits(total - sent) + Digits(sent)
  }

  /**
    The marshalled state of some non-blank messages out of total; rest is everything
    that does not depend on them, the original request included, which is never
    dropped.
  */
  function Size(rest: nat, total: nat, msgs: seq<Message>): nat
    requires |msgs| <= total
  {
    rest + 2 + EntriesSize(msgs) + Commas(|msgs|) + FieldSize(total, |msgs|)
  }

  function Sized(rest: nat, total: nat): Sizer {
    (msgs: seq<Message>) => if |msgs| <= total then Some(Size(rest, total, msgs) <= Budget) else None
  }

  lemma {:induction false} DigitsStep(n: nat)
    ensures Digits(n) <= Digits(n + 1) <= Digits(n) + 1
  {
    if n >= 10 {
      if n % 10 == 9 {
        DigitsStep(n / 10);
        assert (n + 1) / 10 == n / 10 + 1;
      } else {
        assert (n + 1) / 10 == n / 10;
      }
    }
  }

  // ----- What one more drop does

  lemma {:induction false} SameBelow(kept: seq<Selected>, gone: set<nat>, more: set<nat>)
    requires forall i: nat | i < |kept| :: i in gone <==> i in more
    ensures Without(kept, gone) == Without(kept, more)
  {
    if kept != [] {
      SameBelow(kept[..|kept| - 1], gone, more);
    }
  }

  lemma TotalMore(msgs: seq<Message>, m: Message, size: Message -> nat)
    ensures Total(msgs + [m], size) == Total(msgs, size) + size(m)
  {
    assert (msgs + [m])[..|msgs|] == msgs;
  }

  lemma {:induction false} TotalConcat(a: seq<Message>, b: seq<Message>, size: Message -> nat)
    ensures Total(a + b, size) == Total(a, size) + Total(b, size)
    decreases |b|
  {
    if b == [] {
      assert a + b == a;
    } else {
      var init, last := b[..|b| - 1], b[|b| - 1];
      TotalConcat(a, init, size);
      TotalMore(a + init, last, size);
      assert a + b == (a + init) + [last];
    }
  }

  lemma TotalOfOne(m: Message, size: Message -> nat)
    ensures Total([m], size) == size(m)
  {
    TotalMore([], m, size);
    assert [] + [m] == [m];
  }

  lemma WithoutLast(kept: seq<Selected>, gone: set<nat>)
    requires kept != []
    ensures Without(kept, gone) == Without(kept[..|kept| - 1], gone) + if |kept| - 1 in gone then [] else [kept[|kept| - 1].msg]
  {
  }

  /** One more index gone takes one message out and leaves the rest in place. */
  lemma {:induction false} TakesOneOut(kept: seq<Selected>, gone: set<nat>, i: nat) returns (a: seq<Message>, b: seq<Message>)
    requires i < |kept| && i !in gone
    ensures Without(kept, gone) == a + ([kept[i].msg] + b) && Without(kept, gone + {i}) == a + b
  {
    var n := |kept| - 1;
    WithoutLast(kept, gone);
    WithoutLast(kept, gone + {i});
    if i == n {
      SameBelow(kept[..n], gone, gone + {i});
      a, b := Without(kept[..n], gone), [];
    } else {
      var c;
      a, c := TakesOneOut(kept[..n], gone, i);
      var last := if n in gone then [] else [kept[n].msg];
      b := c + last;
      Assoc(a, [kept[i].msg] + c, last);
      Assoc([kept[i].msg], c, last);
      Assoc(a, c, last);
    }
  }

  lemma OneLess(a: seq<Message>, m: Message, b: seq<Message>, size: Message -> nat)
    ensures Total(a + ([m] + b), size) == Total(a + b, size) + size(m)
  {
    TotalConcat(a, [m] + b, size);
    TotalConcat([m], b, size);
    TotalConcat(a, b, size);
    TotalOfOne(m, size);
  }

  lemma DropsOneEntry(kept: seq<Selected>, gone: set<nat>, i: nat)
    requires i < |kept| && i !in gone
    ensures |Without(kept, gone)| == |Without(kept, gone + {i})| + 1
    ensures EntriesSize(Without(kept, gone)) == EntriesSize(Without(kept, gone + {i})) + EntrySize(kept[i].msg)
  {
    var a, b := TakesOneOut(kept, gone, i);
    OneLess(a, kept[i].msg, b, EntrySize);
  }

  lemma {:induction false} WithoutNothing(kept: seq<Selected>)
    ensures |Without(kept, {})| == |kept|
    ensures forall i | 0 <= i < |kept| :: Without(kept, {})[i] == kept[i].msg
  {
    if kept != [] {
      WithoutNothing(kept[..|kept| - 1]);
    }
  }

  /** The messages left after k drops. */
  function Tail(kept: seq<Selected>, order: seq<nat>, k: nat): seq<Message>
    requires k <= |order|
  {
    Without(kept, ToSet(order[..k]))
  }

  lemma DropSetGrows(kept: seq<Selected>, order: seq<nat>, k: nat)
    requires DropOrder(kept, order) && k < |order|
    ensures ToSet(order[..k + 1]) == ToSet(order[..k]) + {order[k]} && order[k] !in ToSet(order[..k])
  {
    assert order[..k + 1] == order[..k] + [order[k]];
    forall a | 0 <= a < k
      ensures order[a] != order[k]
    {
      assert Before(kept, order[a], order[k]);
    }
  }

  /** The k-th drop takes away one entry. */
  lemma NextDrop(kept: seq<Selected>, order: seq<nat>, k: nat)
    requires DropOrder(kept, order) && k < |order|
    ensures |Tail(kept, order, k)| == |Tail(kept, order, k + 1)| + 1
    ensures EntriesSize(Tail(kept, order, k)) == EntriesSize(Tail(kept, order, k + 1)) + EntrySize(kept[order[k]].msg)
  {
    DropSetGrows(kept, order, k);
    DropsOneEntry(kept, ToSet(order[..k]), order[k]);
  }

  lemma OneShorter(kept: seq<Selected>, order: seq<nat>, k: nat)
    requires DropOrder(kept, order) && k < |order|
    ensures |Tail(kept, order, k)| == |Tail(kept, order, k + 1)| + 1
  {
    NextDrop(kept, order, k);
  }

  lemma NoDrops(kept: seq<Selected>, order: seq<nat>)
    ensures |Tail(kept, order, 0)| == |kept|
  {
    assert ToSet(order[..0]) == {};
    WithoutNothing(kept);
  }

  lemma {:induction false} TailLength(kept: seq<Selected>, order: seq<nat>, k: nat)
    requires DropOrder(kept, order) && k <= |order|
    ensures k <= |kept| && |Tail(kept, order, k)| == |kept| - k
  {
    if k == 0 {
      NoDrops(kept, order);
    } else {
      var j: nat := k - 1;
      TailLength(kept, order, j);
      OneShorter(kept, order, j);
    }
  }

  /** The state's sizes after 0, 1, ... drops. */
  ghost predicate SizesOf(rest: nat, total: nat, kept: seq<Selected>, order: seq<nat>, sizes: seq<nat>) {
    && |sizes| == |order| + 1
    && forall k: nat {:trigger Tail(kept, order, k)} | k < |sizes| :: |Tail(kept, order, k)| <= total && sizes[k] == Size(rest, total, Tail(kept, order, k))
  }

  lemma SizesExist(rest: nat, total: nat, kept: seq<Selected>, order: seq<nat>) returns (sizes: seq<nat>)
    requires DropOrder(kept, order) && |kept| <= total
    ensures SizesOf(rest, total, kept, order, sizes)
  {
    forall k: nat | k <= |order|
      ensures |Tail(kept, order, k)| <= total
    {
      TailLength(kept, order, k);
    }
    sizes := seq(|order| + 1, k requires 0 <= k <= |order| => Size(rest, total, Tail(kept, order, k)));
  }

  lemma FieldAbsent(total: nat)
    ensures FieldSize(total, total) == 0
  {
  }

  /** One drop, which leaves sent - 1 messages: what it saves and what it adds. */
  lemma OneDrop(rest: nat, total: nat, kept: seq<Selected>, order: seq<nat>, sizes: seq<nat>, k: nat, sent: nat)
    requires DropOrder(kept, order) && |kept| <= total && SizesOf(rest, total, kept, order, sizes) && k < |order|
    requires |kept| == sent + k
    ensures 0 < sent <= total
    ensures sizes[k + 1] + EntrySize(kept[order[k]].msg) + Commas(sent) + FieldSize(total, sent)
         == sizes[k] + Commas(sent - 1) + FieldSize(total, sent - 1)
  {
    TailLength(kept, order, k);
    TailLength(kept, order, k + 1);
    NextDrop(kept, order, k);
  }

  lemma FieldGrowsByOne(total: nat, sent: nat)
    requires 0 < sent < total
    ensures FieldSize(total, sent - 1) <= FieldSize(total, sent) + 1
  {
    DigitsStep(total - sent);
    DigitsStep(sent - 1);
  }

  /** Once something is left out, every further drop makes the state smaller. */
  lemma LaterDropsShrink(rest: nat, total: nat, kept: seq<Selected>, order: seq<nat>, sizes: seq<nat>, k: nat)
    requires DropOrder(kept, order) && |kept| <= total && SizesOf(rest, total, kept, order, sizes) && k < |order|
    requires |kept| - k < total
    ensures sizes[k + 1] < sizes[k]
  {
    TailLength(kept, order, k);
    OneDrop(rest, total, kept, order, sizes, k, |kept| - k);
    FieldGrowsByOne(total, |kept| - k);
  }

  // ----- When the search is right

  /** The first drop turns a state that fits into one that does not. */
  predicate FirstDropOverflows(sizes: seq<nat>) {
    |sizes| > 1 && sizes[0] <= Budget < sizes[1]
  }

  /**
    In bytes: nothing was left out before, the state fits, and the field is too much
    larger than the first entry and its comma.
  */
  lemma FirstDropOverflowsIff(rest: nat, total: nat, kept: seq<Selected>, order: seq<nat>, sizes: seq<nat>)
    requires DropOrder(kept, order) && |kept| <= total && SizesOf(rest, total, kept, order, sizes) && order != []
    ensures kept != []
    ensures FirstDropOverflows(sizes) <==>
              && |kept| == total && sizes[0] <= Budget
              && sizes[0] + FieldSize(total, total - 1) + Commas(total - 1)
                 > Budget + EntrySize(kept[order[0]].msg) + Commas(total)
  {
    TailLength(kept, order, 1);
    if |kept| == total {
      FirstDrop(rest, total, kept, order, sizes);
    } else {
      LaterDropsShrink(rest, total, kept, order, sizes, 0);
    }
  }

  lemma FirstDrop(rest: nat, total: nat, kept: seq<Selected>, order: seq<nat>, sizes: seq<nat>)
    requires DropOrder(kept, order) && |kept| == total && SizesOf(rest, total, kept, order, sizes) && order != []
    ensures total > 0
    ensures sizes[1] + EntrySize(kept[order[0]].msg) + Commas(total)
         == sizes[0] + FieldSize(total, total - 1) + Commas(total - 1)
  {
    OneDrop(rest, total, kept, order, sizes, 0, total);
    FieldAbsent(total);
  }

  lemma {:induction false} Descends(sizes: seq<nat>, j: nat, k: nat)
    requires forall i: nat | 1 <= i < |sizes| - 1 :: sizes[i + 1] < sizes[i]
    requires 1 <= j <= k < |sizes|
    ensures sizes[k] <= sizes[j]
    decreases k - j
  {
    if j < k {
      Descends(sizes, j + 1, k);
    }
  }

  /** Every test the search can make, in terms of the sizes. */
  lemma TestsAreSizes(rest: nat, total: nat, kept: seq<Selected>, sizes: seq<nat>)
    requires |kept| <= total && SizesOf(rest, total, kept, Order(kept), sizes)
    ensures forall k: nat | k <= |Order(kept)| ::
              && FitsAt(Sized(rest, total), kept, Order(kept), k) == Some(sizes[k] <= Budget)
              && (Test(Sized(rest, total), kept)(k) <==> sizes[k] <= Budget)
  {
    forall k: nat | k <= |Order(kept)|
      ensures FitsAt(Sized(rest, total), kept, Order(kept), k) == Some(sizes[k] <= Budget)
    {
      assert Tail(kept, Order(kept), k) == Without(kept, ToSet(Order(kept)[..k]));
    }
  }

  ghost predicate FitsAsSized(fits: Sizer, kept: seq<Selected>, order: seq<nat>, sizes: seq<nat>) {
    |sizes| == |order| + 1 && forall k: nat | k <= |order| :: FitsAt(fits, kept, order, k) == Some(sizes[k] <= Budget)
  }

  lemma MonotoneIffNoOverflow(fits: Sizer, kept: seq<Selected>, order: seq<nat>, sizes: seq<nat>)
    requires FitsAsSized(fits, kept, order, sizes)
    requires forall i: nat | 1 <= i < |sizes| - 1 :: sizes[i + 1] < sizes[i]
    ensures Monotone(fits, kept, order) <==> !FirstDropOverflows(sizes)
  {
    if FirstDropOverflows(sizes) {
      assert FitsAt(fits, kept, order, 0) == Some(true) && FitsAt(fits, kept, order, 1) == Some(false);
    } else {
      forall j: nat, k: nat | j <= k <= |order| && FitsAt(fits, kept, order, j) == Some(true)
        ensures FitsAt(fits, kept, order, k) == Some(true)
      {
        if 0 < k {
          Descends(sizes, if j == 0 then 1 else j, k);
        }
      }
    }
  }

  lemma AllLaterDropsShrink(rest: nat, total: nat, kept: seq<Selected>, order: seq<nat>, sizes: seq<nat>)
    requires DropOrder(kept, order) && |kept| <= total && SizesOf(rest, total, kept, order, sizes)
    ensures forall i: nat | 1 <= i < |sizes| - 1 :: sizes[i + 1] < sizes[i]
  {
    forall i: nat | 1 <= i < |sizes| - 1
      ensures sizes[i + 1] < sizes[i]
    {
      TailLength(kept, order, i);
      LaterDropsShrink(rest, total, kept, order, sizes, i);
    }
  }

  /** The premise of the search, that dropping more never grows the state out of the budget, holds exactly without such a drop. */
  lemma MonotoneIff(rest: nat, total: nat, kept: seq<Selected>, sizes: seq<nat>)
    requires |kept| <= total && SizesOf(rest, total, kept, Order(kept), sizes)
    ensures Monotone(Sized(rest, total), kept, Order(kept)) <==> !FirstDropOverflows(sizes)
  {
    OrderIsDropOrder(kept);
    TestsAreSizes(rest, total, kept, sizes);
    AllLaterDropsShrink(rest, total, kept, Order(kept), sizes);
    MonotoneIffNoOverflow(Sized(rest, total), kept, Order(kept), sizes);
  }

  lemma {:induction false} SearchSkipsZero(test: nat -> bool, lo: nat, hi: nat)
    requires lo <= hi && hi >= 2 && !test(1)
    ensures TranscriptFit.Search(test, lo, hi) >= 2
    decreases hi - lo
  {
    if lo < hi {
      var mid := lo + (hi - lo) / 2;
      if test(mid) {
        SearchSkipsZero(test, lo, mid);
      } else {
        SearchSkipsZero(test, mid + 1, hi);
      }
    }
  }

  /** How many messages Fit drops. */
  function Drops(rest: nat, total: nat, kept: seq<Selected>): (k: nat)
    ensures k <= |Order(kept)|
  {
    TranscriptFit.Search(Test(Sized(rest, total), kept), 0, |Order(kept)|)
  }

  /** After such a drop the search throws away at least two messages where none had to go. */
  lemma OverflowDropsForNothing(rest: nat, total: nat, kept: seq<Selected>, sizes: seq<nat>)
    requires |kept| <= total && SizesOf(rest, total, kept, Order(kept), sizes)
    requires |Order(kept)| >= 2 && FirstDropOverflows(sizes)
    ensures Drops(rest, total, kept) >= 2
    ensures Greedy(kept, Sized(rest, total), {}) == Without(kept, {})
    ensures |Tail(kept, Order(kept), Drops(rest, total, kept))| <= |Without(kept, {})| - 2
  {
    OrderIsDropOrder(kept);
    TestsAreSizes(rest, total, kept, sizes);
    SearchSkipsZero(Test(Sized(rest, total), kept), 0, |Order(kept)|);
    assert ToSet(Order(kept)[..0]) == {};
    WithoutNothing(kept);
    TailLength(kept, Order(kept), Drops(rest, total, kept));
  }

  lemma NoOverflowIsGreedy(rest: nat, total: nat, kept: seq<Selected>, sizes: seq<nat>)
    requires |kept| <= total && SizesOf(rest, total, kept, Order(kept), sizes)
    requires |Order(kept)| < 2 || !FirstDropOverflows(sizes)
    ensures Tail(kept, Order(kept), Drops(rest, total, kept)) == Greedy(kept, Sized(rest, total), {})
  {
    var fits, order := Sized(rest, total), Order(kept);
    OrderIsDropOrder(kept);
    TestsAreSizes(rest, total, kept, sizes);
    if !FirstDropOverflows(sizes) {
      MonotoneIff(rest, total, kept, sizes);
      SearchIsLeast(fits, kept);
    } else {
      assert Test(fits, kept)(0) && |order| == 1;
      assert Drops(rest, total, kept) == TranscriptFit.Search(Test(fits, kept), 0, 0);
    }
    SearchEqualsGreedy(kept, fits, order, Drops(rest, total, kept));
  }

  /**
    Fit returns what the greedy loop would have returned if and only if the first drop
    does not turn a fitting state into one over budget, or there is only one message to
    drop.
  */
  lemma FitIsGreedyIff(rest: nat, total: nat, kept: seq<Selected>, sizes: seq<nat>)
    requires |kept| <= total && SizesOf(rest, total, kept, Order(kept), sizes)
    ensures Tail(kept, Order(kept), Drops(rest, total, kept)) == Greedy(kept, Sized(rest, total), {})
       <==> !(|Order(kept)| >= 2 && FirstDropOverflows(sizes))
  {
    if |Order(kept)| >= 2 && FirstDropOverflows(sizes) {
      OverflowDropsForNothing(rest, total, kept, sizes);
    } else {
      NoOverflowIsGreedy(rest, total, kept, sizes);
    }
  }
}
