/**
  lengthPrefixedKey (internal/agent/agent_dedup.go): each part is written as its
  length in bytes, a colon and the part. A decoder gets every list back, so no two
  lists share a key.
*/
module LengthPrefix {
  import opened Wrappers
  import opened Json

  /** Bytes of one character in UTF-8. */
  function Width(c: char): (n: nat)
    ensures 1 <= n <= 4
  {
    if c as int < 0x80 then 1 else if c as int < 0x800 then 2 else if c as int < 0x10000 then 3 else 4
  }

  function ByteLen(s: string): nat {
    if s == "" then 0 else Width(s[0]) + ByteLen(s[1..])
  }

  function Digit(n: nat): char
    requires n < 10
  {
    '0' + n as char
  }

  function Itoa(n: nat): string {
    if n < 10 then [Digit(n)] else Itoa(n / 10) + [Digit(n % 10)]
  }

  function Entry(part: string): string {
    Itoa(ByteLen(part)) + ([':'] + part)
  }

  function LengthPrefixed(parts: seq<string>): string {
    if parts == [] then "" else Entry(parts[0]) + LengthPrefixed(parts[1..])
  }

  lemma EntryAppended(b: string, part: string, rest: string)
    ensures (b + Itoa(ByteLen(part)) + [':'] + part) + rest == b + (Entry(part) + rest)
  {
    var n := Itoa(ByteLen(part));
    Assoc(b + n, [':'], part);
    Assoc(b, n, [':'] + part);
    Assoc(b, Entry(part), rest);
  }

  method LengthPrefixedKey(parts: seq<string>) returns (b: string)
    ensures b == LengthPrefixed(parts)
  {
    b := "";
    for i := 0 to |parts|
      invariant b + LengthPrefixed(parts[i..]) == LengthPrefixed(parts)
    {
      assert parts[i..][1..] == parts[i + 1..];
      EntryAppended(b, parts[i], LengthPrefixed(parts[i + 1..]));
      b := b + Itoa(ByteLen(parts[i])) + [':'] + parts[i];
    }
    assert parts[|parts|..] == [];
  }

  // ----- Reading a key back

  function ReadLength(text: string, n: nat): (r: Option<(nat, string)>)
    ensures r.Some? ==> |r.value.1| < |text|
  {
    if text == "" then None
    else if text[0] == ':' then Some((n, text[1..]))
    else if '0' <= text[0] <= '9' then ReadLength(text[1..], 10 * n + (text[0] as nat - '0' as nat))
    else None
  }

  function TakeBytes(text: string, n: nat): (r: Option<(string, string)>)
    ensures r.Some? ==> |r.value.1| <= |text|
  {
    if n == 0 then Some(("", text))
    else if text == "" || Width(text[0]) > n then None
    else
      match TakeBytes(text[1..], n - Width(text[0]))
      case None => None
      case Some((part, rest)) => Some(([text[0]] + part, rest))
  }

  function Decode(text: string): Option<seq<string>>
    decreases |text|
  {
    if text == "" then Some([])
    else
      match ReadLength(text, 0)
      case None => None
      case Some((n, body)) =>
        match TakeBytes(body, n)
        case None => None
        case Some((part, rest)) =>
          match Decode(rest)
          case None => None
          case Some(parts) => Some([part] + parts)
  }

  lemma {:induction false} ReadItoa(n: nat, more: string)
    ensures ReadLength(Itoa(n) + more, 0) == ReadLength(more, n)
  {
    if n < 10 {
      assert ([Digit(n)] + more)[1..] == more;
    } else {
      var d := Digit(n % 10);
      Assoc(Itoa(n / 10), [d], more);
      ReadItoa(n / 10, [d] + more);
      assert ([d] + more)[1..] == more;
    }
  }

  lemma {:induction false} TakeWholePart(part: string, more: string)
    ensures TakeBytes(part + more, ByteLen(part)) == Some((part, more))
  {
    if part == "" {
      assert part + more == more;
    } else {
      TakeWholePart(part[1..], more);
      assert (part + more)[1..] == part[1..] + more;
      assert [part[0]] + part[1..] == part;
    }
  }

  /** Unique decodability, for every list of strings. */
  lemma {:induction false} DecodeInverts(parts: seq<string>)
    ensures Decode(LengthPrefixed(parts)) == Some(parts)
  {
    if parts != [] {
      var part, more := parts[0], LengthPrefixed(parts[1..]);
      Assoc(Itoa(ByteLen(part)), [':'] + part, more);
      Assoc([':'], part, more);
      ReadItoa(ByteLen(part), [':'] + (part + more));
      assert ([':'] + (part + more))[1..] == part + more;
      TakeWholePart(part, more);
      DecodeInverts(parts[1..]);
      assert [part] + parts[1..] == parts;
    }
  }

  lemma LengthPrefixIsInjective(a: seq<string>, b: seq<string>)
    ensures LengthPrefixed(a) == LengthPrefixed(b) <==> a == b
  {
    DecodeInverts(a);
    DecodeInverts(b);
  }
}
