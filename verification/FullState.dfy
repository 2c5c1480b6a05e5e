/**
  The whole state of a judge request (buildTypesafeAutoContinueState,
  internal/agent/autocontinue_typesafe.go) and, for whatever its other fields hold, a
  transcript of which the search drops messages for nothing.
*/
module FullState {
  import opened Wrappers
  import opened DispatchKey
  import opened JsonText
  import opened LengthPrefix
  import opened Selection
  import opened TranscriptFit
  import opened StateSize

  // ----- The other fields

  datatype TodoItem = TodoItem(id: string, status: string, text: string)

  /** turn_ended, chain_actions_fired, the two plan fields, advisor_available and auto_continue_model. */
  datatype Fields = Fields(turnEnded: string, fired: seq<string>, open: bool, items: seq<TodoItem>, advisor: bool, model: Option<string>)

  const FrameOverhead: nat := 122
  const ItemOverhead: nat := 31
  const ModelOverhead: nat := 25
  const RequestOverhead: nat := 22

  lemma FrameIsTheText()
    ensures |"{\"advisor_available\":,\"chain_actions_fired\":,\"todo_has_open_items\":,"|
            + |"\"todo_open_items\":,\"transcript_tail\":,\"turn_ended\":\"\"}"| == FrameOverhead
  {
  }

  lemma PartsAreTheTexts()
    ensures |"{\"id\":\"\",\"status\":\"\",\"text\":\"\"}"| == ItemOverhead
    ensures |"\"auto_continue_model\":\"\","| == ModelOverhead
    ensures |"\"original_request\":\"\","| == RequestOverhead
  {
  }

  function BoolSize(b: bool): nat {
    if b then 4 else 5
  }

  function KeySize(key: string): nat {
    2 + TextSize(key)
  }

  function ItemSize(item: TodoItem): nat {
    ItemOverhead + TextSize(item.id) + TextSize(item.status) + TextSize(item.text)
  }

  /** A JSON array. */
  function ListSize<T>(xs: seq<T>, size: T -> nat): nat {
    2 + Total(xs, size) + Commas(|xs|)
  }

  /** Everything of the state but its transcript; no open items are sent as null. */
  function RestSize(f: Fields, request: string): nat {
    FrameOverhead + BoolSize(f.advisor) + BoolSize(f.open) + TextSize(f.turnEnded)
    + ListSize(f.fired, KeySize)
    + (if f.items == [] then 4 else ListSize(f.items, ItemSize))
    + (if f.model.Some? then ModelOverhead + TextSize(f.model.value) else 0)
    + RequestOverhead + CappedSize(Trim(request))
  }

  // ----- How much they can hold

  lemma {:induction false} ByteLenConcat(a: string, b: string)
    ensures ByteLen(a + b) == ByteLen(a) + ByteLen(b)
  {
    if a == "" {
      assert a + b == b;
    } else {
      assert (a + b)[1..] == a[1..] + b;
      ByteLenConcat(a[1..], b);
    }
  }

  lemma {:induction false} AsciiBytes(s: string)
    requires forall i | 0 <= i < |s| :: s[i] as int < 0x80
    ensures ByteLen(s) == |s|
  {
    if s != "" {
      AsciiBytes(s[1..]);
    }
  }

  lemma EscapedAtMost(c: char)
    ensures ByteLen(Escape(c)) <= 6
  {
    var e := Escape(c);
    if |e| > 1 {
      AsciiBytes(e);
    } else {
      assert e == [c] && ByteLen(e[1..]) == 0;
    }
  }

  lemma {:induction false} TextSizeAtMost(s: string)
    ensures TextSize(s) <= 6 * |s|
  {
    if s != "" {
      EscapedAtMost(s[0]);
      ByteLenConcat(Escape(s[0]), EscapeAll(s[1..]));
      TextSizeAtMost(s[1..]);
    }
  }

  lemma {:induction false} TotalAtMost<T>(xs: seq<T>, size: T -> nat, bound: nat)
    requires forall i | 0 <= i < |xs| :: size(xs[i]) <= bound
    ensures Total(xs, size) <= bound * |xs|
  {
    if xs != [] {
      TotalAtMost(xs[..|xs| - 1], size, bound);
      assert bound * |xs| == bound * (|xs| - 1) + bound;
    }
  }

  /** The caps the code sets, and room for keys, ids and names that it leaves open. */
  predicate Usual(f: Fields) {
    && |f.turnEnded| <= 200
    && |f.fired| <= 40 && (forall i | 0 <= i < |f.fired| :: |f.fired[i]| <= 20)
    && |f.items| <= 15 && (forall i | 0 <= i < |f.items| :: |f.items[i].id| + |f.items[i].status| + |f.items[i].text| <= 300)
    && (f.model.Some? ==> |f.model.value| <= 200)
  }

  lemma FiredAtMost(fired: seq<string>)
    requires |fired| <= 40 && forall i | 0 <= i < |fired| :: |fired[i]| <= 20
    ensures ListSize(fired, KeySize) <= 5000
  {
    forall i | 0 <= i < |fired|
      ensures KeySize(fired[i]) <= 122
    {
      TextSizeAtMost(fired[i]);
    }
    TotalAtMost(fired, KeySize, 122);
  }

  lemma ItemsAtMost(items: seq<TodoItem>)
    requires |items| <= 15 && forall i | 0 <= i < |items| :: |items[i].id| + |items[i].status| + |items[i].text| <= 300
    ensures ListSize(items, ItemSize) <= 28000
  {
    forall i | 0 <= i < |items|
      ensures ItemSize(items[i]) <= 1831
    {
      TextSizeAtMost(items[i].id);
      TextSizeAtMost(items[i].status);
      TextSizeAtMost(items[i].text);
    }
    TotalAtMost(items, ItemSize, 1831);
  }

  /** The other fields leave most of the budget to the transcript. */
  lemma RestIsSmall(f: Fields, request: string)
    requires Usual(f) && Trim(request) == request && |request| <= 4000
    ensures RestSize(f, request) <= 36000 + 6 * |request|
  {
    FiredAtMost(f.fired);
    ItemsAtMost(f.items);
    TextSizeAtMost(f.turnEnded);
    TextSizeAtMost(request);
    if f.model.Some? {
      TextSizeAtMost(f.model.value);
    }
  }

  // ----- A transcript of which the search drops too much

  predicate Letters(s: string) {
    forall i | 0 <= i < |s| :: 'a' <= s[i] <= 'z'
  }

  lemma {:induction false} LettersAreBytes(s: string)
    requires Letters(s)
    ensures EscapeAll(s) == s && ByteLen(s) == |s|
  {
    if s != "" {
      LettersAreBytes(s[1..]);
      assert [s[0]] + s[1..] == s;
    }
  }

  lemma LettersAreTrim(s: string)
    requires Letters(s)
    ensures Trim(s) == s
  {
    if s != "" {
      assert !IsSpace(s[0]) && !IsSpace(s[|s| - 1]);
    }
  }

  /** A message of letters that is sent whole, with n letters in its role and content. */
  predicate Plain(m: Message, n: nat) {
    m.content != "" && Letters(m.content) && Letters(m.role) && |m.content| <= 4000 && |m.role| + |m.content| == n
  }

  lemma PlainEntry(m: Message, n: nat)
    requires Plain(m, n)
    ensures EntrySize(m) == EntryOverhead + n
  {
    LettersAreTrim(m.content);
    LettersAreBytes(m.content);
    LettersAreBytes(m.role);
  }

  /**
    A request, a short message with the lowest score, twenty-three messages of one
    length, one that fills up and the last reply; the request and the reply are pinned.
  */
  predicate Chain(kept: seq<Selected>, long: nat, filler: nat) {
    && |kept| == 27
    && kept[0].msg == Message("user", "go") && Plain(kept[1].msg, 11) && Plain(kept[26].msg, 13)
    && (forall i | 2 <= i < 25 :: Plain(kept[i].msg, 9 + long))
    && Plain(kept[25].msg, 9 + filler)
    && (forall i | 0 <= i < 27 :: kept[i].keep && (Droppable(kept[i]) <==> 1 <= i <= 25) && (kept[i].pinned <==> !(1 <= i <= 25)))
    && (forall i | 2 <= i <= 25 :: kept[1].score < kept[i].score)
  }

  function ChainAt(i: nat, long: nat, filler: nat): Selected {
    if i == 0 then Selected(Message("user", "go"), true, true, false, 0.0)
    else if i == 1 then Selected(Message("assistant", "ok"), false, true, true, 0.5)
    else if i == 26 then Selected(Message("assistant", "done"), true, true, false, 0.0)
    else Selected(Message("assistant", seq(if i == 25 then filler else long, k => 'a')), false, true, true, 0.9)
  }

  lemma ChainExists(long: nat, filler: nat) returns (kept: seq<Selected>)
    requires 0 < long <= 4000 && 0 < filler <= 4000
    ensures Chain(kept, long, filler)
  {
    kept := seq(27, i requires 0 <= i < 27 => ChainAt(i, long, filler));
  }

  lemma {:induction false} TotalSame<T>(xs: seq<T>, size: T -> nat, each: nat)
    requires forall i | 0 <= i < |xs| :: size(xs[i]) == each
    ensures Total(xs, size) == each * |xs|
  {
    if xs != [] {
      TotalSame(xs[..|xs| - 1], size, each);
      assert each * |xs| == each * (|xs| - 1) + each;
    }
  }

  lemma TotalOfTwo(a: Message, b: Message, size: Message -> nat)
    ensures Total([a, b], size) == size(a) + size(b)
  {
    TotalOfOne(a, size);
    TotalMore([a], b, size);
    assert [a] + [b] == [a, b];
  }

  lemma ChainTotal(msgs: seq<Message>, size: Message -> nat, each: nat)
    requires |msgs| == 27 && forall i | 2 <= i < 25 :: size(msgs[i]) == each
    ensures Total(msgs, size) == size(msgs[0]) + size(msgs[1]) + 23 * each + size(msgs[25]) + size(msgs[26])
  {
    var head, mid, end := [msgs[0], msgs[1]], msgs[2..25], [msgs[25], msgs[26]];
    assert msgs == head + (mid + end);
    TotalConcat(head, mid + end, size);
    TotalConcat(mid, end, size);
    TotalOfTwo(msgs[0], msgs[1], size);
    TotalOfTwo(msgs[25], msgs[26], size);
    TotalSame(mid, size, each);
  }

  lemma ChainEntries(kept: seq<Selected>, long: nat, filler: nat)
    requires Chain(kept, long, filler)
    ensures |Without(kept, {})| == 27 && EntriesSize(Without(kept, {})) == 894 + 23 * long + filler
  {
    var msgs := Without(kept, {});
    WithoutNothing(kept);
    PlainEntry(msgs[0], 6);
    PlainEntry(msgs[1], 11);
    PlainEntry(msgs[25], 9 + filler);
    PlainEntry(msgs[26], 13);
    forall i | 2 <= i < 25
      ensures EntrySize(msgs[i]) == 33 + long
    {
      PlainEntry(msgs[i], 9 + long);
    }
    ChainTotal(msgs, EntrySize, 33 + long);
  }

  lemma ChainFieldSize(total: nat)
    requires total == 27
    ensures FieldSize(total, total - 1) == 67
  {
    assert Itoa(27) == Itoa(2) + [Digit(7)] && Itoa(26) == Itoa(2) + [Digit(6)];
  }

  lemma LowestIsFirst(kept: seq<Selected>, order: seq<nat>, long: nat, filler: nat)
    requires Chain(kept, long, filler) && DropOrder(kept, order)
    ensures |order| >= 2 && order[0] == 1
  {
    assert Droppable(kept[1]) && Droppable(kept[2]);
    assert 1 in order && 2 in order;
  }

  lemma ChainOverflows(kept: seq<Selected>, order: seq<nat>, rest: nat, total: nat, sizes: seq<nat>, long: nat, filler: nat)
    requires Chain(kept, long, filler) && DropOrder(kept, order) && total == |kept|
    requires SizesOf(rest, total, kept, order, sizes) && sizes[0] == Budget
    ensures |order| >= 2 && FirstDropOverflows(sizes)
  {
    LowestIsFirst(kept, order, long, filler);
    ChainFieldSize(total);
    PlainEntry(kept[1].msg, 11);
    FirstDropOverflowsIff(rest, total, kept, order, sizes);
  }

  /** Lengths that fill the budget to the byte beside rest. */
  lemma Lengths(rest: nat) returns (long: nat, filler: nat)
    requires rest <= 95000
    ensures 0 < long <= 4000 && 0 < filler <= 4000 && rest + 2 + (894 + 23 * long + filler) + 26 == Budget
  {
    var letters: nat := Budget - rest - 922;
    long := letters / 24;
    filler := letters - 23 * long;
  }

  /**
    Whatever the other fields hold, up to 95000 bytes: some chain of 27 messages, none
    over the cap, fills the budget exactly, so none of them had to go, and the search
    drops at least two.
  */
  lemma SomeChainLosesMessages(f: Fields) returns (kept: seq<Selected>, long: nat, filler: nat, sizes: seq<nat>)
    requires RestSize(f, "go") <= 95000
    ensures Chain(kept, long, filler) && SizesOf(RestSize(f, "go"), 27, kept, Order(kept), sizes) && sizes[0] == Budget
    ensures Greedy(kept, Sized(RestSize(f, "go"), 27), {}) == Without(kept, {})
    ensures Drops(RestSize(f, "go"), 27, kept) >= 2
  {
    var rest := RestSize(f, "go");
    long, filler := Lengths(rest);
    kept := ChainExists(long, filler);
    sizes := LosesMessages(kept, rest, long, filler);
  }

  lemma LosesMessages(kept: seq<Selected>, rest: nat, long: nat, filler: nat) returns (sizes: seq<nat>)
    requires Chain(kept, long, filler) && rest + 2 + (894 + 23 * long + filler) + 26 == Budget
    ensures SizesOf(rest, 27, kept, Order(kept), sizes) && sizes[0] == Budget
    ensures Greedy(kept, Sized(rest, 27), {}) == Without(kept, {})
    ensures Drops(rest, 27, kept) >= 2
  {
    var order, total: nat := Order(kept), |kept|;
    OrderIsDropOrder(kept);
    ChainEntries(kept, long, filler);
    FieldAbsent(total);
    sizes := SizesExist(rest, total, kept, order);
    assert ToSet(order[..0]) == {};
    assert Tail(kept, order, 0) == Without(kept, {});
    ChainOverflows(kept, order, rest, total, sizes, long, filler);
    OverflowDropsForNothing(rest, total, kept, sizes);
  }
}
