/**
  The canonical key of a tool call (canonicalToolCallKey) and the duplicates found
  with it (duplicateToolCallIndices), both in internal/agent/agent_dedup.go.
*/
module JsonKeys {
  import opened Wrappers
  import opened Json
  import opened JsonText
  import opened JsonCanon
  import opened LengthPrefix

  // ----- Decoding accepted text

  function Parse(xs: seq<Lexeme>): (r: Option<(Value, seq<Lexeme>)>)
    ensures r.Some? ==> |r.value.1| < |xs|
    decreases |xs|, 0
  {
    if xs == [] then None
    else
      var rest := xs[1..];
      match xs[0]
      case LNull => Some((Null, rest))
      case LBool(b) => Some((Bool(b), rest))
      case LNum(t) => Some((Num(t), rest))
      case LStr(s) => Some((Str(s), rest))
      case LBrack =>
        (match ParseItems(rest, true)
         case None => None
         case Some((items, more)) => Some((Arr(items), more)))
      case LBrace =>
        (match ParseMembers(rest, true)
         case None => None
         case Some((members, more)) => Some((Obj(members), more)))
      case _ => None
  }

  function ParseItems(xs: seq<Lexeme>, first: bool): (r: Option<(Items, seq<Lexeme>)>)
    ensures r.Some? ==> |r.value.1| < |xs|
    decreases |xs|, 1
  {
    if xs == [] then None
    else if xs[0] == RBrack then Some((NoItems, xs[1..]))
    else if !first && xs[0] != Comma then None
    else
      match Parse(if first then xs else xs[1..])
      case None => None
      case Some((v, more)) =>
        match ParseItems(more, false)
        case None => None
        case Some((tail, end)) => Some((Item(v, tail), end))
  }

  function ParseMembers(xs: seq<Lexeme>, first: bool): (r: Option<(Members, seq<Lexeme>)>)
    ensures r.Some? ==> |r.value.1| < |xs|
    decreases |xs|, 1
  {
    if xs == [] then None
    else if xs[0] == RBrace then Some((NoMembers, xs[1..]))
    else if !first && xs[0] != Comma then None
    else
      var ys := if first then xs else xs[1..];
      if |ys| < 2 || !ys[0].LStr? || ys[1] != Colon then None
      else
        match Parse(ys[2..])
        case None => None
        case Some((v, more)) =>
          match ParseMembers(more, false)
          case None => None
          case Some((rest, end)) => Some((Member(ys[0].s, v, rest), end))
  }

  lemma {:induction false} ParseInverts(v: Value, tail: seq<Lexeme>)
    ensures Parse(Flatten(v) + tail) == Some((v, tail))
    decreases v
  {
    match v
    case Arr(items) =>
      ArrSpelling(items, tail);
      ParseItemsInverts(items, ArrayStart, tail);
      ConsTail(LBrack, LeadItems(items, ArrayStart) + (FlattenItems(items) + ([RBrack] + tail)));
    case Obj(members) =>
      ObjSpelling(members, tail);
      ParseMembersInverts(members, ObjectStart, tail);
      ConsTail(LBrace, LeadMembers(members, ObjectStart) + (FlattenMembers(members) + ([RBrace] + tail)));
    case _ =>
      ConsTail(Flatten(v)[0], tail);
  }

  lemma ConsTail<T>(x: T, rest: seq<T>)
    ensures ([x] + rest)[0] == x && ([x] + rest)[1..] == rest
  {
  }

  lemma {:induction false} ParseItemsInverts(items: Items, s: State, tail: seq<Lexeme>)
    requires s.ArrayStart? || s.ArrayComma?
    ensures ParseItems(LeadItems(items, s) + (FlattenItems(items) + ([RBrack] + tail)), s.ArrayStart?) == Some((items, tail))
    decreases items
  {
    match items
    case NoItems =>
      ConsTail(RBrack, tail);
      assert LeadItems(items, s) + (FlattenItems(items) + ([RBrack] + tail)) == [RBrack] + tail;
    case Item(v, rest) =>
      var after := LeadItems(rest, ArrayComma) + (FlattenItems(rest) + ([RBrack] + tail));
      ItemsSplit(items, s, tail);
      FlattenOpens(v);
      ParseInverts(v, after);
      ParseItemsInverts(rest, ArrayComma, tail);
      PassLead(s, Flatten(v) + after);
  }

  lemma PassLead(s: State, xs: seq<Lexeme>)
    ensures |Lead(s)| <= 1
    ensures Lead(s) == [] ==> Lead(s) + xs == xs
    ensures Lead(s) != [] ==> (Lead(s) + xs)[0] == Lead(s)[0] && (Lead(s) + xs)[1..] == xs
  {
  }

  lemma PairTail(n: Lexeme, c: Lexeme, xs: seq<Lexeme>)
    ensures ([n] + ([c] + xs))[0] == n && ([n] + ([c] + xs))[1] == c && ([n] + ([c] + xs))[2..] == xs
  {
  }

  lemma ParseMember(n: string, s: State, body: seq<Lexeme>, v: Value, more: seq<Lexeme>, rest: Members, tail: seq<Lexeme>)
    requires s.ObjectStart? || s.ObjectComma?
    requires Parse(body) == Some((v, more)) && ParseMembers(more, false) == Some((rest, tail))
    ensures ParseMembers(Lead(s) + ([LStr(n)] + ([Colon] + body)), s.ObjectStart?) == Some((Member(n, v, rest), tail))
  {
    PassLead(s, [LStr(n)] + ([Colon] + body));
    PairTail(LStr(n), Colon, body);
  }

  lemma {:induction false} ParseMembersInverts(members: Members, s: State, tail: seq<Lexeme>)
    requires s.ObjectStart? || s.ObjectComma?
    ensures ParseMembers(LeadMembers(members, s) + (FlattenMembers(members) + ([RBrace] + tail)), s.ObjectStart?)
         == Some((members, tail))
    decreases members
  {
    match members
    case NoMembers =>
      ConsTail(RBrace, tail);
      assert LeadMembers(members, s) + (FlattenMembers(members) + ([RBrace] + tail)) == [RBrace] + tail;
    case Member(n, v, rest) =>
      var after := LeadMembers(rest, ObjectComma) + (FlattenMembers(rest) + ([RBrace] + tail));
      MembersSplit(members, s, tail);
      ParseInverts(v, after);
      ParseMembersInverts(rest, ObjectComma, tail);
      ParseMember(n, s, Flatten(v) + after, v, after, rest, tail);
  }

  /** A value has one spelling and a spelling has one value. */
  lemma FlattenIsInjective(v: Value, w: Value)
    ensures Flatten(v) == Flatten(w) <==> v == w
  {
    ParseInverts(v, []);
    ParseInverts(w, []);
    assert Flatten(v) + [] == Flatten(v) && Flatten(w) + [] == Flatten(w);
  }

  // ----- Written values never run two numbers together

  /** What may follow a value. */
  predicate Follows(tail: seq<Lexeme>) {
    Clean(tail) && (tail == [] || tail[0].Comma? || tail[0].RBrack? || tail[0].RBrace?)
  }

  lemma CleanCons(x: Lexeme, tail: seq<Lexeme>)
    requires Clean(tail) && !x.Junk? && (x.LNum? && tail != [] ==> !tail[0].LNum?)
    ensures Clean([x] + tail)
  {
    var xs := [x] + tail;
    assert forall i | 1 <= i < |xs| :: xs[i] == tail[i - 1];
  }

  lemma {:induction false} FlattenIsClean(v: Value, tail: seq<Lexeme>)
    requires Follows(tail)
    ensures Clean(Flatten(v) + tail)
    decreases v
  {
    match v
    case Arr(items) =>
      ArrSpelling(items, tail);
      ItemsAreClean(items, ArrayStart, tail);
      CleanCons(LBrack, LeadItems(items, ArrayStart) + (FlattenItems(items) + ([RBrack] + tail)));
    case Obj(members) =>
      ObjSpelling(members, tail);
      MembersAreClean(members, ObjectStart, tail);
      CleanCons(LBrace, LeadMembers(members, ObjectStart) + (FlattenMembers(members) + ([RBrace] + tail)));
    case _ =>
      CleanCons(Flatten(v)[0], tail);
  }

  lemma CleanLead(s: State, tail: seq<Lexeme>)
    requires Clean(tail)
    ensures Clean(Lead(s) + tail) && (Lead(s) != [] ==> (Lead(s) + tail)[0] == Lead(s)[0])
  {
    if Lead(s) == [] {
      assert Lead(s) + tail == tail;
    } else {
      CleanCons(Lead(s)[0], tail);
      assert Lead(s) == [Lead(s)[0]];
    }
  }

  lemma {:induction false} ItemsAreClean(items: Items, s: State, tail: seq<Lexeme>)
    requires Clean(tail) && (s.ArrayStart? || s.ArrayComma?)
    ensures var xs := LeadItems(items, s) + (FlattenItems(items) + ([RBrack] + tail));
            Clean(xs) && (s.ArrayComma? ==> Follows(xs))
    decreases items
  {
    match items
    case NoItems =>
      CleanCons(RBrack, tail);
      assert LeadItems(items, s) + (FlattenItems(items) + ([RBrack] + tail)) == [RBrack] + tail;
    case Item(v, rest) =>
      var after := LeadItems(rest, ArrayComma) + (FlattenItems(rest) + ([RBrack] + tail));
      ItemsSplit(items, s, tail);
      ItemsAreClean(rest, ArrayComma, tail);
      FlattenIsClean(v, after);
      CleanLead(s, Flatten(v) + after);
  }

  lemma MemberIsClean(n: string, value: seq<Lexeme>, s: State)
    requires Clean(value) && (s.ObjectStart? || s.ObjectComma?)
    ensures var xs := Lead(s) + ([LStr(n)] + (Lead(ObjectColon) + value));
            Clean(xs) && (s.ObjectComma? ==> Follows(xs))
  {
    CleanCons(Colon, value);
    CleanCons(LStr(n), [Colon] + value);
    CleanLead(s, [LStr(n)] + ([Colon] + value));
  }

  lemma {:induction false} MembersAreClean(members: Members, s: State, tail: seq<Lexeme>)
    requires Clean(tail) && (s.ObjectStart? || s.ObjectComma?)
    ensures var xs := LeadMembers(members, s) + (FlattenMembers(members) + ([RBrace] + tail));
            Clean(xs) && (s.ObjectComma? ==> Follows(xs))
    decreases members
  {
    match members
    case NoMembers =>
      CleanCons(RBrace, tail);
      assert LeadMembers(members, s) + (FlattenMembers(members) + ([RBrace] + tail)) == [RBrace] + tail;
    case Member(n, v, rest) =>
      var after := LeadMembers(rest, ObjectComma) + (FlattenMembers(rest) + ([RBrace] + tail));
      MembersSplit(members, s, tail);
      MembersAreClean(rest, ObjectComma, tail);
      FlattenIsClean(v, after);
      MemberIsClean(n, Flatten(v) + after, s);
  }

  // ----- The key

  /** json.Marshal of a decoded value. */
  function Marshal(v: Value): string {
    Spell(Flatten(Canon(v)))
  }

  /** Marshalled text tells values apart, and nothing more. */
  lemma MarshalIffSame(v: Value, w: Value)
    requires DuplicateFree(v) && DuplicateFree(w)
    ensures Marshal(v) == Marshal(w) <==> Same(v, w)
  {
    var a, b := Flatten(Canon(v)), Flatten(Canon(w));
    SameIffCanonEqual(v, w);
    FlattenIsInjective(Canon(v), Canon(w));
    FlattenIsClean(Canon(v), []);
    FlattenIsClean(Canon(w), []);
    assert a + [] == a && b + [] == b;
    if Spell(a) == Spell(b) {
      SpellIsInjective(a, b);
    }
  }

  function CanonicalKey(name: string, arguments: seq<Lexeme>): Option<string> {
    if !Accepts(arguments) then None
    else
      match Parse(arguments)
      case None => None
      case Some((v, _)) => Some(LengthPrefixed([name, Marshal(v)]))
  }

  /** Two calls of the same tool whose arguments are the same JSON value. */
  ghost predicate SameCall(name: string, arguments: seq<Lexeme>, other: string, theirs: seq<Lexeme>) {
    name == other && exists v, w ::
      && DuplicateFree(v) && Flatten(v) == arguments
      && DuplicateFree(w) && Flatten(w) == theirs
      && Same(v, w)
  }

  lemma KeyOf(name: string, arguments: seq<Lexeme>) returns (v: Value)
    requires Spelled(arguments)
    ensures DuplicateFree(v) && Flatten(v) == arguments
    ensures CanonicalKey(name, arguments) == Some(LengthPrefixed([name, Marshal(v)]))
  {
    AcceptsExactlyTheGrammar(arguments);
    v :| DuplicateFree(v) && Flatten(v) == arguments;
    ParseInverts(v, []);
    assert Flatten(v) + [] == arguments;
  }

  /** Exactly the well-formed calls have a key. */
  lemma KeyableIffSpelled(name: string, arguments: seq<Lexeme>)
    ensures CanonicalKey(name, arguments).Some? <==> Spelled(arguments)
  {
    AcceptsExactlyTheGrammar(arguments);
    if Spelled(arguments) {
      var _ := KeyOf(name, arguments);
    }
  }

  /** Keys are equal exactly for the same tool with the same arguments. */
  lemma KeysMeanSameCall(name: string, arguments: seq<Lexeme>, other: string, theirs: seq<Lexeme>)
    ensures CanonicalKey(name, arguments).Some? && CanonicalKey(name, arguments) == CanonicalKey(other, theirs)
       <==> SameCall(name, arguments, other, theirs)
  {
    KeyableIffSpelled(name, arguments);
    KeyableIffSpelled(other, theirs);
    if Spelled(arguments) && Spelled(theirs) {
      var v := KeyOf(name, arguments);
      var w := KeyOf(other, theirs);
      MarshalIffSame(v, w);
      LengthPrefixIsInjective([name, Marshal(v)], [other, Marshal(w)]);
      assert [name, Marshal(v)] == [other, Marshal(w)] <==> name == other && Marshal(v) == Marshal(w);
      if SameCall(name, arguments, other, theirs) {
        var x, y :| DuplicateFree(x) && Flatten(x) == arguments && DuplicateFree(y) && Flatten(y) == theirs && Same(x, y);
        FlattenIsInjective(v, x);
        FlattenIsInjective(w, y);
      }
    }
  }

  // ----- Duplicates in one batch

  datatype ToolCall = ToolCall(id: string, name: string, arguments: seq<Lexeme>)

  /** Calls i and j ask for the same work. */
  ghost predicate Duplicates(calls: seq<ToolCall>, i: nat, j: nat)
    requires i < |calls| && j < |calls|
  {
    SameCall(calls[i].name, calls[i].arguments, calls[j].name, calls[j].arguments)
  }

  /** Exactly the later copies are rejected, each in favour of the least equal index, which is kept. */
  ghost predicate Rejects(calls: seq<ToolCall>, rejected: map<nat, nat>) {
    && (forall j: nat | j < |calls| :: j in rejected <==> exists i: nat :: i < j && Duplicates(calls, i, j))
    && (forall j | j in rejected ::
          && rejected[j] < j < |calls| && rejected[j] !in rejected && Duplicates(calls, rejected[j], j)
          && forall i: nat | i < rejected[j] :: !Duplicates(calls, i, j))
  }

  function Keys(calls: seq<ToolCall>): (keys: seq<Option<string>>)
    ensures |keys| == |calls|
    ensures forall i | 0 <= i < |calls| :: keys[i] == CanonicalKey(calls[i].name, calls[i].arguments)
  {
    seq(|calls|, i requires 0 <= i < |calls| => CanonicalKey(calls[i].name, calls[i].arguments))
  }

  /** The table holds the least index of every key seen so far. */
  ghost predicate Table(keys: seq<Option<string>>, firstByKey: map<string, nat>, n: nat)
    requires n <= |keys|
  {
    && (forall k | k in firstByKey :: firstByKey[k] < n && keys[firstByKey[k]] == Some(k))
    && (forall j: nat | j < n && keys[j].Some? ::
          keys[j].value in firstByKey && firstByKey[keys[j].value] <= j)
  }

  /** The calls below n that repeat an earlier one point at the first of their kind. */
  ghost predicate Repeats(keys: seq<Option<string>>, firstByKey: map<string, nat>, rejected: map<nat, nat>, n: nat)
    requires n <= |keys| && Table(keys, firstByKey, n)
  {
    && (forall j | j in rejected :: j < n && keys[j].Some? && rejected[j] == firstByKey[keys[j].value])
    && (forall j: nat | j < n :: j in rejected <==> keys[j].Some? && firstByKey[keys[j].value] < j)
  }

  ghost predicate Ascending(order: seq<nat>, rejected: map<nat, nat>) {
    && (forall j :: j in order <==> j in rejected)
    && (forall a, b | 0 <= a < b < |order| :: order[a] < order[b])
  }

  lemma UnkeyedStep(keys: seq<Option<string>>, firstByKey: map<string, nat>, rejected: map<nat, nat>, i: nat)
    requires i < |keys| && Table(keys, firstByKey, i) && Repeats(keys, firstByKey, rejected, i)
    requires keys[i] == None
    ensures Table(keys, firstByKey, i + 1) && Repeats(keys, firstByKey, rejected, i + 1)
  {
  }

  lemma RepeatStep(keys: seq<Option<string>>, firstByKey: map<string, nat>, rejected: map<nat, nat>, i: nat)
    requires i < |keys| && Table(keys, firstByKey, i) && Repeats(keys, firstByKey, rejected, i)
    requires keys[i].Some? && keys[i].value in firstByKey
    ensures Table(keys, firstByKey, i + 1)
    ensures Repeats(keys, firstByKey, rejected[i := firstByKey[keys[i].value]], i + 1)
  {
  }

  lemma FirstStep(keys: seq<Option<string>>, firstByKey: map<string, nat>, rejected: map<nat, nat>, i: nat)
    requires i < |keys| && Table(keys, firstByKey, i) && Repeats(keys, firstByKey, rejected, i)
    requires keys[i].Some? && keys[i].value !in firstByKey
    ensures Table(keys, firstByKey[keys[i].value := i], i + 1)
    ensures Repeats(keys, firstByKey[keys[i].value := i], rejected, i + 1)
  {
  }

  lemma AppendKeepsOrder(order: seq<nat>, rejected: map<nat, nat>, i: nat, first: nat)
    requires Ascending(order, rejected) && forall j | j in rejected :: j < i
    ensures Ascending(order + [i], rejected[i := first])
  {
    forall a | 0 <= a < |order|
      ensures order[a] < i
    {
      assert order[a] in order;
    }
  }

  ghost predicate SameKey(keys: seq<Option<string>>, i: nat, j: nat)
    requires i < |keys| && j < |keys|
  {
    keys[i].Some? && keys[i] == keys[j]
  }

  /** What a finished table says of call j. */
  lemma RepeatsAreRejected(keys: seq<Option<string>>, firstByKey: map<string, nat>, rejected: map<nat, nat>, j: nat)
    requires j < |keys| && Table(keys, firstByKey, |keys|) && Repeats(keys, firstByKey, rejected, |keys|)
    ensures j in rejected <==> exists i: nat :: i < j && SameKey(keys, i, j)
    ensures j in rejected ==>
              && rejected[j] < j && rejected[j] !in rejected && SameKey(keys, rejected[j], j)
              && forall i: nat | i < rejected[j] :: !SameKey(keys, i, j)
  {
    if j in rejected {
      assert SameKey(keys, rejected[j], j);
    }
  }

  lemma SameKeyMeansDuplicates(calls: seq<ToolCall>)
    ensures forall i: nat, j: nat | i < |calls| && j < |calls| :: SameKey(Keys(calls), i, j) <==> Duplicates(calls, i, j)
  {
    forall i: nat, j: nat | i < |calls| && j < |calls|
      ensures SameKey(Keys(calls), i, j) <==> Duplicates(calls, i, j)
    {
      KeysMeanSameCall(calls[i].name, calls[i].arguments, calls[j].name, calls[j].arguments);
    }
  }

  lemma RepeatsMeanDuplicates(calls: seq<ToolCall>, keys: seq<Option<string>>, firstByKey: map<string, nat>, rejected: map<nat, nat>)
    requires |keys| == |calls| && Table(keys, firstByKey, |keys|) && Repeats(keys, firstByKey, rejected, |keys|)
    requires forall i: nat, j: nat | i < |calls| && j < |calls| :: SameKey(keys, i, j) <==> Duplicates(calls, i, j)
    ensures Rejects(calls, rejected)
  {
    forall j: nat | j < |calls|
      ensures j in rejected <==> exists i: nat :: i < j && Duplicates(calls, i, j)
      ensures j in rejected ==>
                && rejected[j] < j && rejected[j] !in rejected && Duplicates(calls, rejected[j], j)
                && forall i: nat | i < rejected[j] :: !Duplicates(calls, i, j)
    {
      RepeatsAreRejected(keys, firstByKey, rejected, j);
    }
  }

  /**
    Every later copy is rejected in favour of the least equal index, which is
    itself kept; the rejected indices are listed in order.
  */
  method DuplicateToolCallIndices(calls: seq<ToolCall>) returns (rejected: map<nat, nat>, order: seq<nat>)
    ensures Rejects(calls, rejected)
    ensures Ascending(order, rejected) && forall j | j in rejected :: rejected[j] < j < |calls| && rejected[j] !in rejected
  {
    ghost var keys := Keys(calls);
    var firstByKey: map<string, nat> := map[];
    rejected, order := map[], [];
    for i := 0 to |calls|
      invariant Table(keys, firstByKey, i)
      invariant Repeats(keys, firstByKey, rejected, i)
      invariant Ascending(order, rejected)
    {
      var key := CanonicalKey(calls[i].name, calls[i].arguments);
      assert key == keys[i];
      if key.None? {
        UnkeyedStep(keys, firstByKey, rejected, i);
        continue;
      }
      if key.value in firstByKey {
        RepeatStep(keys, firstByKey, rejected, i);
        AppendKeepsOrder(order, rejected, i, firstByKey[key.value]);
        rejected := rejected[i := firstByKey[key.value]];
        order := order + [i];
        continue;
      }
      FirstStep(keys, firstByKey, rejected, i);
      firstByKey := firstByKey[key.value := i];
    }
    SameKeyMeansDuplicates(calls);
    RepeatsMeanDuplicates(calls, keys, firstByKey, rejected);
  }
}
