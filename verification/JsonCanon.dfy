/**
  When two argument texts mean the same. Decoding turns an object into a finite
  map, so the order of members carries no meaning; marshalling writes the members
  in key order. Equal canonical texts are shown to be exactly equal values.
*/
module JsonCanon {
  import opened Wrappers
  import opened Json
  import opened JsonText

  // ----- The order of keys

  predicate Less(a: string, b: string) {
    if a == "" then b != ""
    else if b == "" then false
    else if a[0] != b[0] then a[0] < b[0]
    else Less(a[1..], b[1..])
  }

  lemma {:induction false} LessIsTotal(a: string, b: string)
    ensures a == b || Less(a, b) || Less(b, a)
    ensures !(Less(a, b) && (a == b || Less(b, a)))
    decreases |a|
  {
    if a != "" && b != "" {
      assert a == [a[0]] + a[1..] && b == [b[0]] + b[1..];
      LessIsTotal(a[1..], b[1..]);
    }
  }

  lemma {:induction false} LessIsTransitive(a: string, b: string, c: string)
    requires Less(a, b) && Less(b, c)
    ensures Less(a, c)
    decreases |a|
  {
    if a != "" && a[0] == b[0] == c[0] {
      LessIsTransitive(a[1..], b[1..], c[1..]);
    }
  }

  // ----- Objects as maps

  function Lookup(members: Members, name: string): (r: Option<Value>)
    ensures r.Some? ==> r.value < members
    ensures r.Some? <==> name in Names(members)
  {
    match members
    case NoMembers => None
    case Member(n, v, rest) => if n == name then Some(v) else Lookup(rest, name)
  }

  /** Equality of JSON values: objects as finite maps, numbers by their text. */
  ghost predicate Same(v: Value, w: Value)
    decreases v
  {
    match v
    case Arr(items) => w.Arr? && SameItems(items, w.items)
    case Obj(members) =>
      && w.Obj?
      && Names(members) == Names(w.members)
      && (forall n | n in Names(members) :: Same(Lookup(members, n).value, Lookup(w.members, n).value))
    case _ => v == w
  }

  ghost predicate SameItems(a: Items, b: Items)
    decreases a
  {
    match a
    case NoItems => b.NoItems?
    case Item(v, tail) => b.Item? && Same(v, b.head) && SameItems(tail, b.tail)
  }

  // ----- The canonical form: members in key order, at every depth

  function Canon(v: Value): Value {
    match v
    case Arr(items) => Arr(CanonItems(items))
    case Obj(members) => Obj(CanonMembers(members))
    case _ => v
  }

  function CanonItems(items: Items): Items {
    match items
    case NoItems => NoItems
    case Item(v, tail) => Item(Canon(v), CanonItems(tail))
  }

  function CanonMembers(members: Members): Members {
    match members
    case NoMembers => NoMembers
    case Member(n, v, rest) => Insert(n, Canon(v), CanonMembers(rest))
  }

  function Insert(n: string, v: Value, members: Members): Members {
    match members
    case NoMembers => Member(n, v, NoMembers)
    case Member(m, w, rest) =>
      if Less(n, m) then Member(n, v, members) else Member(m, w, Insert(n, v, rest))
  }

  predicate Sorted(members: Members) {
    match members
    case NoMembers => true
    case Member(n, _, rest) => (rest.Member? ==> Less(n, rest.name)) && Sorted(rest)
  }

  lemma {:induction false} InsertSorts(n: string, v: Value, members: Members)
    requires Sorted(members) && n !in Names(members)
    ensures Sorted(Insert(n, v, members)) && Names(Insert(n, v, members)) == Names(members) + {n}
    ensures forall k :: Lookup(Insert(n, v, members), k) == if k == n then Some(v) else Lookup(members, k)
    decreases members
  {
    match members
    case NoMembers =>
    case Member(m, w, rest) =>
      LessIsTotal(n, m);
      InsertSorts(n, v, rest);
  }

  lemma {:induction false} CanonMembersSorts(members: Members)
    requires DuplicateFreeMembers(members)
    ensures Sorted(CanonMembers(members)) && Names(CanonMembers(members)) == Names(members)
    ensures forall k | k in Names(members) ::
              Lookup(CanonMembers(members), k) == Some(Canon(Lookup(members, k).value))
    decreases members
  {
    match members
    case NoMembers =>
    case Member(n, v, rest) =>
      CanonMembersSorts(rest);
      InsertSorts(n, Canon(v), CanonMembers(rest));
  }

  lemma {:induction false} SortedHeadIsLeast(members: Members, k: string)
    requires Sorted(members) && members.Member? && k in Names(members.rest)
    ensures Less(members.name, k)
    decreases members
  {
    if k != members.rest.name {
      SortedHeadIsLeast(members.rest, k);
      LessIsTransitive(members.name, members.rest.name, k);
    }
  }

  /** Two sorted member lists with the same lookups are the same list. */
  lemma {:induction false} SortedIsUnique(a: Members, b: Members)
    requires Sorted(a) && Sorted(b) && Names(a) == Names(b)
    requires forall k | k in Names(a) :: Lookup(a, k) == Lookup(b, k)
    ensures a == b
    decreases a
  {
    NoNames(b);
    match a
    case NoMembers =>
    case Member(n, v, rest) =>
      assert n in Names(b);
      assert b.name in Names(a);
      HeadsAgree(a, b);
      TailNames(a);
      TailNames(b);
      forall k | k in Names(rest)
        ensures Lookup(rest, k) == Lookup(b.rest, k)
      {
        assert Lookup(a, k) == Lookup(b, k);
      }
      SortedIsUnique(rest, b.rest);
      assert Lookup(a, n) == Lookup(b, n);
  }

  lemma NoNames(members: Members)
    ensures Names(members) == {} <==> members.NoMembers?
  {
    if members.Member? {
      assert members.name in Names(members);
    }
  }

  lemma HeadsAgree(a: Members, b: Members)
    requires Sorted(a) && Sorted(b) && a.Member? && b.Member? && a.name in Names(b) && b.name in Names(a)
    ensures a.name == b.name
  {
    if a.name != b.name {
      SortedHeadIsLeast(a, b.name);
      SortedHeadIsLeast(b, a.name);
      LessIsTotal(a.name, b.name);
    }
  }

  lemma TailNames(a: Members)
    requires Sorted(a) && a.Member?
    ensures Names(a.rest) == Names(a) - {a.name}
  {
    if a.name in Names(a.rest) {
      SortedHeadIsLeast(a, a.name);
      LessIsTotal(a.name, a.name);
    }
  }

  // ----- Same value, same canonical form

  lemma {:induction false} SameIffCanonEqual(v: Value, w: Value)
    requires DuplicateFree(v) && DuplicateFree(w)
    ensures Same(v, w) <==> Canon(v) == Canon(w)
    decreases v, 1
  {
    match v
    case Arr(items) =>
      if w.Arr? {
        SameItemsIffCanonEqual(items, w.items);
      }
    case Obj(members) =>
      if w.Obj? {
        SameMembersIffCanonEqual(members, w.members);
      }
    case _ =>
  }

  lemma {:induction false} SameItemsIffCanonEqual(a: Items, b: Items)
    requires DuplicateFreeItems(a) && DuplicateFreeItems(b)
    ensures SameItems(a, b) <==> CanonItems(a) == CanonItems(b)
    decreases a, 0
  {
    if a.Item? && b.Item? {
      SameIffCanonEqual(a.head, b.head);
      SameItemsIffCanonEqual(a.tail, b.tail);
    }
  }

  lemma {:induction false} LookupIsDuplicateFree(members: Members, n: string)
    requires DuplicateFreeMembers(members) && n in Names(members)
    ensures DuplicateFree(Lookup(members, n).value)
    decreases members
  {
    if members.name != n {
      LookupIsDuplicateFree(members.rest, n);
    }
  }

  lemma {:induction false} SameMembersIffCanonEqual(a: Members, b: Members)
    requires DuplicateFreeMembers(a) && DuplicateFreeMembers(b)
    ensures Same(Obj(a), Obj(b)) <==> CanonMembers(a) == CanonMembers(b)
    decreases a, 0
  {
    CanonMembersSorts(a);
    CanonMembersSorts(b);
    if Names(a) == Names(b) {
      forall n | n in Names(a)
        ensures Same(Lookup(a, n).value, Lookup(b, n).value)
           <==> Lookup(CanonMembers(a), n) == Lookup(CanonMembers(b), n)
      {
        LookupIsDuplicateFree(a, n);
        LookupIsDuplicateFree(b, n);
        SameIffCanonEqual(Lookup(a, n).value, Lookup(b, n).value);
      }
      if Same(Obj(a), Obj(b)) {
        SortedIsUnique(CanonMembers(a), CanonMembers(b));
      }
    }
  }
}
