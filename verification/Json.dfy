/**
  JSON arguments as validateJSONValue sees them (internal/agent/agent_dedup.go).

  The input is the sequence of its lexemes; a piece of text that is no lexeme is
  Junk. The decoder is a token reader with a state and a stack, which hands commas
  and colons silently. The grammar of sections 2 to 7 of RFC 8259 is given by
  Flatten: the lexemes of a value.
*/
module Json {
  import opened Wrappers

  predicate NumberChar(c: char) {
    '0' <= c <= '9' || c == '+' || c == '-' || c == '.' || c == 'e' || c == 'E'
  }

  /** A number literal; its text is kept, so 1 and 1.0 differ. */
  type NumText = s: string | s != "" && forall i | 0 <= i < |s| :: NumberChar(s[i])
    witness "0"

  datatype Value =
    | Null
    | Bool(b: bool)
    | Num(text: NumText)
    | Str(s: string)
    | Arr(items: Items)
    | Obj(members: Members)

  datatype Items = NoItems | Item(head: Value, tail: Items)

  /** Members in the order the input lists them. */
  datatype Members = NoMembers | Member(name: string, value: Value, rest: Members)

  datatype Lexeme =
    | LBrace | RBrace | LBrack | RBrack | Colon | Comma
    | LNull | LBool(b: bool) | LNum(text: NumText) | LStr(s: string)
    | Junk

  // ----- The grammar

  function Flatten(v: Value): (r: seq<Lexeme>)
    ensures r != []
  {
    match v
    case Null => [LNull]
    case Bool(b) => [LBool(b)]
    case Num(t) => [LNum(t)]
    case Str(s) => [LStr(s)]
    case Arr(items) => [LBrack] + FlattenItems(items) + [RBrack]
    case Obj(members) => [LBrace] + FlattenMembers(members) + [RBrace]
  }

  function FlattenItems(items: Items): seq<Lexeme> {
    match items
    case NoItems => []
    case Item(v, tail) => Flatten(v) + ((if tail.NoItems? then [] else [Comma]) + FlattenItems(tail))
  }

  function FlattenMembers(members: Members): seq<Lexeme> {
    match members
    case NoMembers => []
    case Member(n, v, rest) =>
      [LStr(n)] + ([Colon] + (Flatten(v) + ((if rest.NoMembers? then [] else [Comma]) + FlattenMembers(rest))))
  }

  function Names(members: Members): set<string> {
    match members
    case NoMembers => {}
    case Member(n, _, rest) => {n} + Names(rest)
  }

  /** No object at any depth repeats a name. */
  predicate DuplicateFree(v: Value) {
    match v
    case Arr(items) => DuplicateFreeItems(items)
    case Obj(members) => DuplicateFreeMembers(members)
    case _ => true
  }

  predicate DuplicateFreeItems(items: Items) {
    match items
    case NoItems => true
    case Item(v, tail) => DuplicateFree(v) && DuplicateFreeItems(tail)
  }

  predicate DuplicateFreeMembers(members: Members) {
    match members
    case NoMembers => true
    case Member(n, v, rest) => n !in Names(rest) && DuplicateFree(v) && DuplicateFreeMembers(rest)
  }

  // ----- The token reader

  datatype State =
    | Top | ArrayStart | ArrayValue | ArrayComma
    | ObjectStart | ObjectKey | ObjectColon | ObjectValue | ObjectComma

  datatype Decoder = Decoder(input: seq<Lexeme>, stack: seq<State>, state: State)

  datatype Error = EndOfInput | Malformed | DuplicateName

  predicate ValueAllowed(s: State) {
    s.Top? || s.ArrayStart? || s.ArrayValue? || s.ObjectValue?
  }

  function AfterValue(s: State): State {
    match s
    case ArrayStart => ArrayComma
    case ArrayValue => ArrayComma
    case ObjectValue => ObjectComma
    case _ => s
  }

  function Pop(d: Decoder): Decoder
    requires d.input != []
  {
    if d.stack == [] then Decoder(d.input[1..], [], Top)
    else Decoder(d.input[1..], d.stack[..|d.stack| - 1], AfterValue(d.stack[|d.stack| - 1]))
  }

  /** The next token, or why there is none. Separators are checked and skipped. */
  function Token(d: Decoder): (r: Result<(Lexeme, Decoder), Error>)
    ensures r.Ok? ==> |r.value.1.input| < |d.input|
    ensures r.Ok? ==> !r.value.0.Comma? && !r.value.0.Colon? && !r.value.0.Junk?
    decreases |d.input|
  {
    if d.input == [] then Err(EndOfInput)
    else
      var c, rest := d.input[0], d.input[1..];
      match c
      case LBrack =>
        if ValueAllowed(d.state) then Ok((c, Decoder(rest, d.stack + [d.state], ArrayStart))) else Err(Malformed)
      case RBrack =>
        if d.state.ArrayStart? || d.state.ArrayComma? then Ok((c, Pop(d))) else Err(Malformed)
      case LBrace =>
        if ValueAllowed(d.state) then Ok((c, Decoder(rest, d.stack + [d.state], ObjectStart))) else Err(Malformed)
      case RBrace =>
        if d.state.ObjectStart? || d.state.ObjectComma? then Ok((c, Pop(d))) else Err(Malformed)
      case Colon =>
        if d.state.ObjectColon? then Token(Decoder(rest, d.stack, ObjectValue)) else Err(Malformed)
      case Comma =>
        if d.state.ArrayComma? then Token(Decoder(rest, d.stack, ArrayValue))
        else if d.state.ObjectComma? then Token(Decoder(rest, d.stack, ObjectKey))
        else Err(Malformed)
      case Junk => Err(Malformed)
      case LStr(_) =>
        if d.state.ObjectStart? || d.state.ObjectKey? then Ok((c, Decoder(rest, d.stack, ObjectColon)))
        else if ValueAllowed(d.state) then Ok((c, Decoder(rest, d.stack, AfterValue(d.state))))
        else Err(Malformed)
      case _ =>
        if ValueAllowed(d.state) then Ok((c, Decoder(rest, d.stack, AfterValue(d.state)))) else Err(Malformed)
  }

  /** Another element or member may follow. */
  predicate More(d: Decoder) {
    d.input != [] && d.input[0] != RBrack && d.input[0] != RBrace
  }

  // ----- validateJSONValue

  function Validate(d: Decoder): (r: Result<Decoder, Error>)
    ensures r.Ok? ==> |r.value.input| < |d.input|
    decreases |d.input|, 1
  {
    match Token(d)
    case Err(e) => Err(e)
    case Ok((tok, next)) =>
      if tok.LBrace? then ValidateMembers(next, {})
      else if tok.LBrack? then ValidateItems(next)
      else if tok.RBrace? || tok.RBrack? then Err(Malformed)
      else Ok(next)
  }

  function Finish(d: Decoder): (r: Result<Decoder, Error>)
    ensures r.Ok? ==> |r.value.input| < |d.input|
  {
    match Token(d)
    case Err(e) => Err(e)
    case Ok((_, next)) => Ok(next)
  }

  function ValidateItems(d: Decoder): (r: Result<Decoder, Error>)
    ensures r.Ok? ==> |r.value.input| < |d.input|
    decreases |d.input|, 2
  {
    if !More(d) then Finish(d)
    else
      match Validate(d)
      case Err(e) => Err(e)
      case Ok(next) => ValidateItems(next)
  }

  function ValidateMembers(d: Decoder, seen: set<string>): (r: Result<Decoder, Error>)
    ensures r.Ok? ==> |r.value.input| < |d.input|
    decreases |d.input|, 2
  {
    if !More(d) then Finish(d)
    else
      match Token(d)
      case Err(e) => Err(e)
      case Ok((key, afterKey)) =>
        if !key.LStr? then Err(Malformed)
        else if key.s in seen then Err(DuplicateName)
        else
          match Validate(afterKey)
          case Err(e) => Err(e)
          case Ok(next) => ValidateMembers(next, seen + {key.s})
  }

  /** The whole input is one value and nothing follows it. */
  predicate Accepts(input: seq<Lexeme>) {
    var r := Validate(Decoder(input, [], Top));
    r.Ok? && Token(r.value) == Err(EndOfInput)
  }

  // ----- The validator accepts exactly the grammar

  /** The separator the decoder still has to pass before a value. */
  function Lead(s: State): seq<Lexeme> {
    match s
    case ArrayComma => [Comma]
    case ObjectComma => [Comma]
    case ObjectColon => [Colon]
    case _ => []
  }

  function PastLead(s: State): State {
    match s
    case ArrayComma => ArrayValue
    case ObjectComma => ObjectKey
    case ObjectColon => ObjectValue
    case _ => s
  }

  /** States in which the code asks for a value. */
  predicate AsksValue(s: State) {
    s.Top? || s.ArrayStart? || s.ArrayComma? || s.ObjectColon?
  }

  predicate Opens(x: Lexeme) {
    !x.RBrace? && !x.RBrack? && !x.Comma? && !x.Colon? && !x.Junk?
  }

  lemma FlattenOpens(v: Value)
    ensures Opens(Flatten(v)[0])
  {
  }

  lemma TokenPastLead(s: State, stack: seq<State>, input: seq<Lexeme>)
    ensures Token(Decoder(Lead(s) + input, stack, s)) == Token(Decoder(input, stack, PastLead(s)))
  {
    if Lead(s) == [] {
      assert Lead(s) + input == input;
    } else {
      assert (Lead(s) + input)[1..] == input;
    }
  }

  function LeadItems(items: Items, s: State): seq<Lexeme> {
    if items.NoItems? then [] else Lead(s)
  }

  function LeadMembers(members: Members, s: State): seq<Lexeme> {
    if members.NoMembers? then [] else Lead(s)
  }

  /** One step of the reader on an explicit first lexeme. */
  lemma TokenAt(x: Lexeme, rest: seq<Lexeme>, stack: seq<State>, s: State)
    ensures var r := Token(Decoder([x] + rest, stack, s));
            && (x.LBrack? && ValueAllowed(s) ==> r == Ok((x, Decoder(rest, stack + [s], ArrayStart))))
            && (x.LBrace? && ValueAllowed(s) ==> r == Ok((x, Decoder(rest, stack + [s], ObjectStart))))
            && (x.LStr? && (s.ObjectStart? || s.ObjectKey?) ==> r == Ok((x, Decoder(rest, stack, ObjectColon))))
            && (Opens(x) && !x.LBrack? && !x.LBrace? && ValueAllowed(s) ==>
                  r == Ok((x, Decoder(rest, stack, AfterValue(s)))))
  {
    assert ([x] + rest)[1..] == rest;
  }

  lemma CloseAt(x: Lexeme, rest: seq<Lexeme>, stack: seq<State>, s: State)
    requires stack != []
    requires (x == RBrack && (s.ArrayStart? || s.ArrayComma?)) || (x == RBrace && (s.ObjectStart? || s.ObjectComma?))
    ensures var d := Decoder([x] + rest, stack, s);
            !More(d) && Finish(d) == Ok(Decoder(rest, stack[..|stack| - 1], AfterValue(stack[|stack| - 1])))
  {
    assert ([x] + rest)[1..] == rest;
  }

  lemma {:induction false} ValidateComplete(v: Value, s: State, stack: seq<State>, tail: seq<Lexeme>)
    requires DuplicateFree(v) && AsksValue(s)
    ensures Validate(Decoder(Lead(s) + (Flatten(v) + tail), stack, s)) == Ok(Decoder(tail, stack, AfterValue(PastLead(s))))
    decreases v, 1
  {
    TokenPastLead(s, stack, Flatten(v) + tail);
    OpenedComplete(v, PastLead(s), stack, tail);
    ValidateFromToken(Decoder(Lead(s) + (Flatten(v) + tail), stack, s), Decoder(Flatten(v) + tail, stack, PastLead(s)));
  }

  lemma ValidateFromToken(d: Decoder, e: Decoder)
    requires Token(d) == Token(e)
    ensures Validate(d) == Validate(e)
  {
  }

  lemma {:induction false} OpenedComplete(v: Value, s: State, stack: seq<State>, tail: seq<Lexeme>)
    requires DuplicateFree(v) && ValueAllowed(s)
    ensures Validate(Decoder(Flatten(v) + tail, stack, s)) == Ok(Decoder(tail, stack, AfterValue(s)))
    decreases v, 0
  {
    match v
    case Arr(items) =>
      var inside := FlattenItems(items) + ([RBrack] + tail);
      ArrSpelling(items, tail);
      TokenAt(LBrack, inside, stack, s);
      ItemsComplete(items, ArrayStart, stack + [s], tail);
      assert LeadItems(items, ArrayStart) + inside == inside;
      assert (stack + [s])[..|stack|] == stack;
    case Obj(members) =>
      var inside := FlattenMembers(members) + ([RBrace] + tail);
      ObjSpelling(members, tail);
      TokenAt(LBrace, inside, stack, s);
      MembersComplete(members, ObjectStart, {}, stack + [s], tail);
      assert LeadMembers(members, ObjectStart) + inside == inside;
      assert (stack + [s])[..|stack|] == stack;
    case _ =>
      TokenAt(Flatten(v)[0], tail, stack, s);
  }

  lemma {:induction false} ItemsComplete(items: Items, s: State, stack: seq<State>, tail: seq<Lexeme>)
    requires DuplicateFreeItems(items) && (s.ArrayStart? || s.ArrayComma?) && stack != []
    ensures ValidateItems(Decoder(LeadItems(items, s) + (FlattenItems(items) + ([RBrack] + tail)), stack, s))
         == Ok(Decoder(tail, stack[..|stack| - 1], AfterValue(stack[|stack| - 1])))
    decreases items
  {
    match items
    case NoItems =>
      assert LeadItems(items, s) + (FlattenItems(items) + ([RBrack] + tail)) == [RBrack] + tail;
      CloseAt(RBrack, tail, stack, s);
    case Item(v, rest) =>
      var after := LeadItems(rest, ArrayComma) + (FlattenItems(rest) + ([RBrack] + tail));
      var input := Lead(s) + (Flatten(v) + after);
      ItemsSplit(items, s, tail);
      FlattenOpens(v);
      assert input[0] == if s.ArrayComma? then Comma else Flatten(v)[0];
      ValidateComplete(v, s, stack, after);
      ItemsComplete(rest, ArrayComma, stack, tail);
  }

  lemma ItemsSplit(items: Items, s: State, tail: seq<Lexeme>)
    requires items.Item?
    ensures LeadItems(items, s) + (FlattenItems(items) + ([RBrack] + tail))
         == Lead(s) + (Flatten(items.head) + (LeadItems(items.tail, ArrayComma) + (FlattenItems(items.tail) + ([RBrack] + tail))))
  {
    var sep, more, close := LeadItems(items.tail, ArrayComma), FlattenItems(items.tail), [RBrack] + tail;
    Assoc(sep, more, close);
    Assoc(Flatten(items.head), sep + more, close);
  }

  lemma MembersSplit(members: Members, s: State, tail: seq<Lexeme>)
    requires members.Member?
    ensures LeadMembers(members, s) + (FlattenMembers(members) + ([RBrace] + tail))
         == Lead(s) + ([LStr(members.name)] + (Lead(ObjectColon) + (Flatten(members.value)
            + (LeadMembers(members.rest, ObjectComma) + (FlattenMembers(members.rest) + ([RBrace] + tail))))))
  {
    var sep, more, close := LeadMembers(members.rest, ObjectComma), FlattenMembers(members.rest), [RBrace] + tail;
    Assoc(sep, more, close);
    Assoc(Flatten(members.value), sep + more, close);
    Assoc([Colon], Flatten(members.value) + (sep + more), close);
    Assoc([LStr(members.name)], [Colon] + (Flatten(members.value) + (sep + more)), close);
  }

  /** Reading one name: the object goes on after its value. */
  lemma MemberStep(n: string, s: State, seen: set<string>, stack: seq<State>, value: seq<Lexeme>, next: Decoder)
    requires (s.ObjectStart? || s.ObjectComma?) && n !in seen
    requires Validate(Decoder(value, stack, ObjectColon)) == Ok(next)
    ensures ValidateMembers(Decoder(Lead(s) + ([LStr(n)] + value), stack, s), seen) == ValidateMembers(next, seen + {n})
  {
    var input := Lead(s) + ([LStr(n)] + value);
    TokenPastLead(s, stack, [LStr(n)] + value);
    TokenAt(LStr(n), value, stack, PastLead(s));
    assert input[0] == if s.ObjectComma? then Comma else LStr(n);
  }

  lemma {:induction false} MembersComplete(members: Members, s: State, seen: set<string>, stack: seq<State>, tail: seq<Lexeme>)
    requires DuplicateFreeMembers(members) && Names(members) !! seen
    requires (s.ObjectStart? || s.ObjectComma?) && stack != []
    ensures ValidateMembers(Decoder(LeadMembers(members, s) + (FlattenMembers(members) + ([RBrace] + tail)), stack, s), seen)
         == Ok(Decoder(tail, stack[..|stack| - 1], AfterValue(stack[|stack| - 1])))
    decreases members
  {
    match members
    case NoMembers =>
      assert LeadMembers(members, s) + (FlattenMembers(members) + ([RBrace] + tail)) == [RBrace] + tail;
      CloseAt(RBrace, tail, stack, s);
    case Member(n, v, rest) =>
      var after := LeadMembers(rest, ObjectComma) + (FlattenMembers(rest) + ([RBrace] + tail));
      MembersSplit(members, s, tail);
      ValidateComplete(v, ObjectColon, stack, after);
      MemberStep(n, s, seen, stack, Lead(ObjectColon) + (Flatten(v) + after), Decoder(after, stack, ObjectComma));
      MembersComplete(rest, ObjectComma, seen + {n}, stack, tail);
  }

  lemma SeparatorIsLead(d: Decoder)
    requires Token(d).Ok? && (d.input[0].Colon? || d.input[0].Comma?)
    ensures Lead(d.state) == [d.input[0]] && Lead(PastLead(d.state)) == []
  {
  }

  /** A separator is passed and the rest read as if it had not been there. */
  lemma SeparatorPassed(d: Decoder)
    requires Token(d).Ok? && (d.input[0].Colon? || d.input[0].Comma?)
    ensures d.input == Lead(d.state) + d.input[1..] && Lead(PastLead(d.state)) == []
    ensures Token(d) == Token(Decoder(d.input[1..], d.stack, PastLead(d.state)))
  {
    var s, rest := d.state, d.input[1..];
    SeparatorIsLead(d);
    FirstAndRest(d.input);
    TokenPastLead(s, d.stack, rest);
    assert d == Decoder(Lead(s) + rest, d.stack, s);
  }

  lemma FirstAndRest<T>(xs: seq<T>)
    requires xs != []
    ensures xs == [xs[0]] + xs[1..]
  {
  }

  /** What the reader passes before a token that opens a value or a member. */
  lemma TokenConsumes(d: Decoder)
    requires Token(d).Ok? && Opens(Token(d).value.0)
    ensures var (tok, next) := Token(d).value;
            d.input == Lead(d.state) + ([tok] + next.input)
  {
    if d.input[0].Colon? || d.input[0].Comma? {
      SeparatorPassed(d);
      TokenTakesOne(Decoder(d.input[1..], d.stack, PastLead(d.state)));
    } else {
      TokenTakesOne(d);
    }
  }

  lemma TokenTakesOne(d: Decoder)
    requires Token(d).Ok? && Opens(Token(d).value.0) && (Lead(d.state) == [] || !(d.input[0].Colon? || d.input[0].Comma?))
    ensures Lead(d.state) == [] && d.input == [Token(d).value.0] + Token(d).value.1.input
  {
    FirstAndRest(d.input);
  }

  /** The state after a token that opens a value where one is asked for. */
  lemma TokenOpensValue(d: Decoder)
    requires AsksValue(d.state) && Token(d).Ok?
    ensures var (tok, next) := Token(d).value;
            && (Opens(tok) || (tok == RBrack && (d.state.ArrayStart? || d.state.ArrayComma?)))
            && (tok.LBrack? ==> next == Decoder(next.input, d.stack + [PastLead(d.state)], ArrayStart))
            && (tok.LBrace? ==> next == Decoder(next.input, d.stack + [PastLead(d.state)], ObjectStart))
            && (Opens(tok) && !tok.LBrack? && !tok.LBrace? ==>
                  next == Decoder(next.input, d.stack, AfterValue(PastLead(d.state))))
  {
  }

  lemma ArrSpelling(items: Items, tail: seq<Lexeme>)
    ensures [LBrack] + (LeadItems(items, ArrayStart) + (FlattenItems(items) + ([RBrack] + tail))) == Flatten(Arr(items)) + tail
  {
    assert LeadItems(items, ArrayStart) == [];
  }

  lemma ObjSpelling(members: Members, tail: seq<Lexeme>)
    ensures [LBrace] + (LeadMembers(members, ObjectStart) + (FlattenMembers(members) + ([RBrace] + tail)))
         == Flatten(Obj(members)) + tail
  {
    assert LeadMembers(members, ObjectStart) == [];
  }

  /** Whatever Validate accepts is a duplicate-free value, up to where it stopped. */
  lemma {:induction false} ValidateSound(d: Decoder) returns (v: Value)
    requires AsksValue(d.state) && Validate(d).Ok?
    ensures DuplicateFree(v)
    ensures var e := Validate(d).value;
            d.input == Lead(d.state) + (Flatten(v) + e.input) && e == Decoder(e.input, d.stack, AfterValue(PastLead(d.state)))
    decreases |d.input|, 1
  {
    var (tok, next) := Token(d).value;
    TokenOpensValue(d);
    TokenConsumes(d);
    var end := Validate(d).value;
    match tok
    case LBrack =>
      var items := ItemsSound(next);
      v := Arr(items);
      ArrSpelling(items, end.input);
      assert next.stack[..|next.stack| - 1] == d.stack;
    case LBrace =>
      var members := MembersSound(next, {});
      v := Obj(members);
      ObjSpelling(members, end.input);
      assert next.stack[..|next.stack| - 1] == d.stack;
    case LNull => v := Null;
    case LBool(b) => v := Bool(b);
    case LNum(t) => v := Num(t);
    case LStr(s) => v := Str(s);
  }

  lemma FinishSound(d: Decoder)
    requires !More(d) && Finish(d).Ok? && d.stack != []
    requires d.state.ArrayStart? || d.state.ArrayComma? || d.state.ObjectStart? || d.state.ObjectComma?
    ensures var e := Finish(d).value;
            && d.input == [if d.state.ArrayStart? || d.state.ArrayComma? then RBrack else RBrace] + e.input
            && e == Decoder(e.input, d.stack[..|d.stack| - 1], AfterValue(d.stack[|d.stack| - 1]))
  {
    assert d.input == [d.input[0]] + d.input[1..];
  }

  lemma {:induction false} ItemsSound(d: Decoder) returns (items: Items)
    requires (d.state.ArrayStart? || d.state.ArrayComma?) && d.stack != [] && ValidateItems(d).Ok?
    ensures DuplicateFreeItems(items)
    ensures var e := ValidateItems(d).value;
            && d.input == LeadItems(items, d.state) + (FlattenItems(items) + ([RBrack] + e.input))
            && e == Decoder(e.input, d.stack[..|d.stack| - 1], AfterValue(d.stack[|d.stack| - 1]))
    decreases |d.input|, 2
  {
    if !More(d) {
      FinishSound(d);
      items := NoItems;
    } else {
      var v := ValidateSound(d);
      var next := Validate(d).value;
      var rest := ItemsSound(next);
      items := Item(v, rest);
      ItemsSplit(items, d.state, ValidateItems(d).value.input);
    }
  }

  /** A member's name is read where one is asked for. */
  lemma TokenOpensMember(d: Decoder)
    requires (d.state.ObjectStart? || d.state.ObjectComma?) && More(d) && Token(d).Ok?
    ensures var (tok, next) := Token(d).value;
            (tok.LStr? && next == Decoder(next.input, d.stack, ObjectColon)) || !Opens(tok)
  {
  }

  /** The lexemes of one member, put together from what was read. */
  lemma MembersJoin(n: string, v: Value, rest: Members, s: State, tail: seq<Lexeme>,
                    input: seq<Lexeme>, afterKey: seq<Lexeme>, afterValue: seq<Lexeme>)
    requires input == Lead(s) + ([LStr(n)] + afterKey)
    requires afterKey == Lead(ObjectColon) + (Flatten(v) + afterValue)
    requires afterValue == LeadMembers(rest, ObjectComma) + (FlattenMembers(rest) + ([RBrace] + tail))
    ensures input == LeadMembers(Member(n, v, rest), s) + (FlattenMembers(Member(n, v, rest)) + ([RBrace] + tail))
  {
    MembersSplit(Member(n, v, rest), s, tail);
  }

  lemma MemberIsNew(n: string, v: Value, rest: Members, seen: set<string>)
    requires n !in seen && DuplicateFree(v) && DuplicateFreeMembers(rest) && Names(rest) !! seen + {n}
    ensures DuplicateFreeMembers(Member(n, v, rest)) && Names(Member(n, v, rest)) !! seen
  {
  }

  /** What the validator has read when it accepts another member. */
  lemma NextMember(d: Decoder, seen: set<string>) returns (name: string, afterKey: Decoder, next: Decoder)
    requires (d.state.ObjectStart? || d.state.ObjectComma?) && More(d) && ValidateMembers(d, seen).Ok?
    ensures afterKey == Decoder(afterKey.input, d.stack, ObjectColon) && |next.input| < |afterKey.input| < |d.input|
    ensures d.input == Lead(d.state) + ([LStr(name)] + afterKey.input)
    ensures name !in seen && Validate(afterKey) == Ok(next)
    ensures ValidateMembers(next, seen + {name}) == ValidateMembers(d, seen)
  {
    var (key, after) := Token(d).value;
    TokenOpensMember(d);
    TokenConsumes(d);
    name, afterKey, next := key.s, after, Validate(after).value;
  }

  lemma {:induction false} MembersSound(d: Decoder, seen: set<string>) returns (members: Members)
    requires (d.state.ObjectStart? || d.state.ObjectComma?) && d.stack != [] && ValidateMembers(d, seen).Ok?
    ensures DuplicateFreeMembers(members) && Names(members) !! seen
    ensures var e := ValidateMembers(d, seen).value;
            && d.input == LeadMembers(members, d.state) + (FlattenMembers(members) + ([RBrace] + e.input))
            && e == Decoder(e.input, d.stack[..|d.stack| - 1], AfterValue(d.stack[|d.stack| - 1]))
    decreases |d.input|, 2
  {
    if !More(d) {
      FinishSound(d);
      members := NoMembers;
    } else {
      var name, afterKey, next := NextMember(d, seen);
      var end := ValidateMembers(d, seen).value;
      var v := ValidateSound(afterKey);
      assert next == Decoder(next.input, d.stack, ObjectComma);
      var rest := MembersSound(next, seen + {name});
      members := Member(name, v, rest);
      MemberIsNew(name, v, rest, seen);
      MembersJoin(name, v, rest, d.state, end.input, d.input, afterKey.input, next.input);
    }
  }

  /** Some duplicate-free value has exactly these lexemes. */
  ghost predicate Spelled(input: seq<Lexeme>) {
    exists v :: DuplicateFree(v) && Flatten(v) == input
  }

  lemma AcceptedIsSpelled(input: seq<Lexeme>)
    requires Accepts(input)
    ensures Spelled(input)
  {
    var d := Decoder(input, [], Top);
    var v := ValidateSound(d);
    LeadAtTop(v, Validate(d).value.input);
    assert Flatten(v) == input;
  }

  lemma SpelledIsAccepted(input: seq<Lexeme>)
    requires Spelled(input)
    ensures Accepts(input)
  {
    var v :| DuplicateFree(v) && Flatten(v) == input;
    ValidateComplete(v, Top, [], []);
    LeadAtTop(v, []);
  }

  /** Nothing stands before or behind a value at the top. */
  lemma LeadAtTop(v: Value, more: seq<Lexeme>)
    requires more == []
    ensures Lead(Top) + (Flatten(v) + more) == Flatten(v)
  {
  }

  /**
    Acceptance is exact: malformed input, trailing data and a name repeated at any
    depth are the only reasons to refuse.
  */
  lemma AcceptsExactlyTheGrammar(input: seq<Lexeme>)
    ensures Accepts(input) <==> Spelled(input)
  {
    if Accepts(input) {
      AcceptedIsSpelled(input);
    }
    if Spelled(input) {
      SpelledIsAccepted(input);
    }
  }

  // ----- The reader object

  class TokenReader {
    var input: seq<Lexeme>
    var stack: seq<State>
    var state: State

    function At(): Decoder
      reads this
    {
      Decoder(input, stack, state)
    }

    constructor (text: seq<Lexeme>)
      ensures At() == Decoder(text, [], Top)
    {
      input, stack, state := text, [], Top;
    }

    /** Token: skips separators in a loop, like the library's. */
    method Next() returns (r: Result<Lexeme, Error>)
      modifies this
      ensures match Token(old(At()))
              case Ok((tok, next)) => r == Ok(tok) && At() == next
              case Err(e) => r == Err(e)
    {
      ghost var d := At();
      while true
        invariant Token(At()) == Token(d)
        decreases |input|
      {
        if input == [] {
          return Err(EndOfInput);
        }
        var c := input[0];
        var opening := ValueAllowed(state);
        if c.Colon? && state.ObjectColon? {
          input, state := input[1..], ObjectValue;
          continue;
        }
        if c.Comma? && state.ArrayComma? {
          input, state := input[1..], ArrayValue;
          continue;
        }
        if c.Comma? && state.ObjectComma? {
          input, state := input[1..], ObjectKey;
          continue;
        }
        if c.LStr? && (state.ObjectStart? || state.ObjectKey?) {
          input, state := input[1..], ObjectColon;
          return Ok(c);
        }
        if (c.RBrack? && (state.ArrayStart? || state.ArrayComma?)) || (c.RBrace? && (state.ObjectStart? || state.ObjectComma?)) {
          state := if stack == [] then Top else AfterValue(stack[|stack| - 1]);
          stack := if stack == [] then [] else stack[..|stack| - 1];
          input := input[1..];
          return Ok(c);
        }
        if !opening || c.Colon? || c.Comma? || c.RBrack? || c.RBrace? || c.Junk? {
          return Err(Malformed);
        }
        input := input[1..];
        if c.LBrack? || c.LBrace? {
          stack, state := stack + [state], if c.LBrack? then ArrayStart else ObjectStart;
        } else {
          state := AfterValue(state);
        }
        return Ok(c);
      }
    }

    /** validateJSONValue: None is success. */
    method ValidateValue() returns (r: Option<Error>)
      modifies this
      ensures match Validate(old(At()))
              case Ok(next) => r == None && At() == next
              case Err(e) => r == Some(e)
      decreases |input|
    {
      ghost var d := At();
      var tok := Next();
      if tok.Err? {
        return Some(tok.error);
      }
      match tok.value
      case LBrace =>
        var seen: set<string> := {};
        ghost var inside := At();
        while input != [] && input[0] != RBrack && input[0] != RBrace
          invariant |input| < |d.input|
          invariant ValidateMembers(At(), seen) == ValidateMembers(inside, {})
          decreases |input|
        {
          var key := Next();
          if key.Err? {
            return Some(key.error);
          }
          if !key.value.LStr? {
            return Some(Malformed);
          }
          if key.value.s in seen {
            return Some(DuplicateName);
          }
          seen := seen + {key.value.s};
          var bad := ValidateValue();
          if bad.Some? {
            return bad;
          }
        }
        var close := Next();
        return if close.Err? then Some(close.error) else None;
      case LBrack =>
        ghost var inside := At();
        while input != [] && input[0] != RBrack && input[0] != RBrace
          invariant |input| < |d.input|
          invariant ValidateItems(At()) == ValidateItems(inside)
          decreases |input|
        {
          var bad := ValidateValue();
          if bad.Some? {
            return bad;
          }
        }
        var close := Next();
        return if close.Err? then Some(close.error) else None;
      case RBrace => return Some(Malformed);
      case RBrack => return Some(Malformed);
      case _ => return None;
    }
  }
}
