/** The private conversation-context header: unpadded base64url (section 5 of
    RFC 4648) around a bounded payload, bound to the principal by a signature. */
module ContextCodec {
  import opened Wrappers

  const MAX_CONTEXT := 8 * 1024

  newtype Byte = x: int | 0 <= x < 256

  const PAD := '='
  const NUL := '\0'

  // The alphabet.

  function Symbol(v: nat): (c: char)
    requires v < 64
    ensures c != PAD && c != NUL && c as int < 128 && Value(c) == Some(v)
  {
    if v < 26 then ('A' as int + v) as char
    else if v < 52 then ('a' as int + (v - 26)) as char
    else if v < 62 then ('0' as int + (v - 52)) as char
    else if v == 62 then '-' else '_'
  }

  /** The URL-safe decoder also takes the two symbols it translates to. */
  function Value(c: char): (v: Option<nat>)
    ensures v.Some? ==> v.value < 64
  {
    if 'A' <= c <= 'Z' then Some(c as int - 'A' as int)
    else if 'a' <= c <= 'z' then Some(c as int - 'a' as int + 26)
    else if '0' <= c <= '9' then Some(c as int - '0' as int + 52)
    else if c == '-' || c == '+' then Some(62)
    else if c == '_' || c == '/' then Some(63)
    else None
  }

  // Encoding and decoding.

  function B64Encode(p: seq<Byte>): (s: seq<char>)
    ensures |s| % 4 == 0 && |s| * 3 <= (|p| + 2) * 4 && (p != [] ==> |s| >= 4)
  {
    if p == [] then []
    else
      var a := p[0] as int;
      if |p| == 1 then [Symbol(a / 4), Symbol(a % 4 * 16), PAD, PAD]
      else
        var b := p[1] as int;
        if |p| == 2 then [Symbol(a / 4), Symbol(a % 4 * 16 + b / 16), Symbol(b % 16 * 4), PAD]
        else
          Group(a, b, p[2] as int) + B64Encode(p[3..])
  }

  /** Three bytes as four symbols. */
  function Group(a: nat, b: nat, c: nat): (g: seq<char>)
    requires a < 256 && b < 256 && c < 256
    ensures |g| == 4 && forall i | 0 <= i < 4 :: g[i] != PAD && g[i] as int < 128
  {
    [Symbol(a / 4), Symbol(a % 4 * 16 + b / 16), Symbol(b % 16 * 4 + c / 64), Symbol(c % 64)]
  }

  /** The alphabet of the standard: A to Z, a to z, 0 to 9, dash and underscore. */
  lemma SymbolsAreTheAlphabet(v: nat)
    requires v < 63
    ensures Symbol(0) == 'A' && Symbol(25) == 'Z' && Symbol(26) == 'a' && Symbol(51) == 'z'
    ensures Symbol(52) == '0' && Symbol(61) == '9' && Symbol(62) == '-' && Symbol(63) == '_'
    ensures v !in {25, 51, 61, 62} ==> Symbol(v + 1) as int == Symbol(v) as int + 1
  {
  }

  /** The four symbols from `at` on, as one number. */
  function Weight(s: seq<char>, at: nat): int
    requires at + 4 <= |s| && forall i | at <= i < at + 4 :: Value(s[i]).Some?
  {
    ((Value(s[at]).value * 64 + Value(s[at + 1]).value) * 64 + Value(s[at + 2]).value) * 64 + Value(s[at + 3]).value
  }

  predicate Symbols(s: seq<char>, at: nat, n: nat) {
    at + n <= |s| && forall i | at <= i < at + n :: s[i] != PAD && Value(s[i]).Some?
  }

  /** The bits of the payload, three bytes to four symbols, are the bits of the encoding;
      one byte left over makes two symbols and two bytes three, with zeros for what is
      missing, and padding fills the last four. */
  lemma {:induction false} EncodesTheBits(p: seq<Byte>, k: nat)
    requires 3 * k < |p|
    ensures GroupIs(B64Encode(p), 4 * k, p, 3 * k)
  {
    hide GroupIs, Group;
    if k == 0 {
      FirstGroup(p);
    } else {
      EncodesTheBits(p[3..], k - 1);
      var (g, rest) := (Group(p[0] as int, p[1] as int, p[2] as int), B64Encode(p[3..]));
      assert B64Encode(p) == g + rest;
      LaterGroup(g, rest, p[..3], p[3..], 4 * (k - 1), 3 * (k - 1));
      assert p == p[..3] + p[3..];
    }
  }

  /** The group of symbols from `at` on holds the bytes from `i` on. */
  predicate GroupIs(s: seq<char>, at: nat, p: seq<Byte>, i: nat)
    requires i < |p|
  {
    && (|p| >= i + 3 ==>
          && Symbols(s, at, 4)
          && Weight(s, at) == (p[i] as int * 256 + p[i + 1] as int) * 256 + p[i + 2] as int)
    && (|p| == i + 2 ==>
          && |s| == at + 4 && s[at + 3] == PAD && Symbols(s, at, 3)
          && (Value(s[at]).value * 64 + Value(s[at + 1]).value) * 64 + Value(s[at + 2]).value ==
             (p[i] as int * 256 + p[i + 1] as int) * 4)
    && (|p| == i + 1 ==>
          && |s| == at + 4 && s[at + 2] == s[at + 3] == PAD && Symbols(s, at, 2)
          && Value(s[at]).value * 64 + Value(s[at + 1]).value == p[i] as int * 16)
  }

  lemma LaterGroup(g: seq<char>, rest: seq<char>, first: seq<Byte>, q: seq<Byte>, at: nat, i: nat)
    requires |g| == 4 && |first| == 3 && i < |q| && GroupIs(rest, at, q, i)
    ensures GroupIs(g + rest, at + 4, first + q, i + 3)
  {
    var (s, p) := (g + rest, first + q);
    assert forall j | 0 <= j < |rest| :: s[j + 4] == rest[j];
    assert forall j | 0 <= j < |q| :: p[j + 3] == q[j];
  }

  lemma FirstGroup(p: seq<Byte>)
    requires p != []
    ensures GroupIs(B64Encode(p), 0, p, 0)
  {
    var a := p[0] as int;
    var b := if |p| > 1 then p[1] as int else 0;
    var c := if |p| > 2 then p[2] as int else 0;
    Bits(a, b, c);
    Bits(a, b, 0);
    Bits(a, 0, 0);
  }

  function RStrip(s: seq<char>): seq<char> {
    if s != [] && s[|s| - 1] == PAD then RStrip(s[..|s| - 1]) else s
  }

  /** "=" * (-len % 4). */
  function Repad(s: seq<char>): seq<char> { s + seq((4 - |s| % 4) % 4, _ => PAD) }

  /** The lenient decoder, one symbol at a time: `quad` symbols of the current group
      are read, `left` holds the bits not yet written. */
  function Scan(s: seq<char>, quad: nat, left: nat, pads: nat): Option<seq<Byte>>
    requires quad < 4 && left < (if quad == 1 then 64 else if quad == 2 then 16 else if quad == 3 then 4 else 1)
    decreases |s|
  {
    if s == [] then if quad == 0 then Some([]) else None
    else if s[0] == PAD then
      if quad >= 2 && quad + pads + 1 >= 4 then Some([])
      else Scan(s[1..], quad, left, if quad >= 2 then pads + 1 else pads)
    else match Value(s[0])
      case None => Scan(s[1..], quad, left, pads)
      case Some(v) =>
        if quad == 0 then Scan(s[1..], 1, v, 0)
        else if quad == 1 then Emit(left * 4 + v / 16, Scan(s[1..], 2, v % 16, 0))
        else if quad == 2 then Emit(left * 16 + v / 4, Scan(s[1..], 3, v % 4, 0))
        else Emit(left * 64 + v, Scan(s[1..], 0, 0, 0))
  }

  function Emit(x: nat, rest: Option<seq<Byte>>): Option<seq<Byte>>
    requires x < 256
  {
    if rest.None? then None else Some([x as Byte] + rest.value)
  }

  function B64Decode(s: seq<char>): Option<seq<Byte>> { Scan(s, 0, 0, 0) }

  /** What the decoder does with one symbol of the alphabet. */
  function Take(v: nat, rest: seq<char>, quad: nat, left: nat): Option<seq<Byte>>
    requires v < 64
    requires quad < 4 && left < (if quad == 1 then 64 else if quad == 2 then 16 else if quad == 3 then 4 else 1)
  {
    if quad == 0 then Scan(rest, 1, v, 0)
    else if quad == 1 then Emit(left * 4 + v / 16, Scan(rest, 2, v % 16, 0))
    else if quad == 2 then Emit(left * 16 + v / 4, Scan(rest, 3, v % 4, 0))
    else Emit(left * 64 + v, Scan(rest, 0, 0, 0))
  }

  lemma TakesSymbol(v: nat, rest: seq<char>, quad: nat, left: nat, pads: nat)
    requires v < 64
    requires quad < 4 && left < (if quad == 1 then 64 else if quad == 2 then 16 else if quad == 3 then 4 else 1)
    ensures Scan([Symbol(v)] + rest, quad, left, pads) == Take(v, rest, quad, left)
  {
    assert ([Symbol(v)] + rest)[1..] == rest;
  }

  lemma TakesPadding(quad: nat)
    requires quad == 2 || quad == 3
    ensures Scan(if quad == 2 then [PAD, PAD] else [PAD], quad, 0, 0) == Some([])
  {
    assert [PAD, PAD][1..] == [PAD];
  }

  lemma Bits(a: nat, b: nat, c: nat)
    requires a < 256 && b < 256 && c < 256
    ensures var v := a % 4 * 16 + b / 16; v < 64 && v / 16 == a % 4 && v % 16 == b / 16 && a / 4 * 4 + v / 16 == a
    ensures var w := b % 16 * 4 + c / 64; w < 64 && w / 4 == b % 16 && w % 4 == c / 64 && b / 16 * 16 + w / 4 == b
    ensures c / 64 * 64 + c % 64 == c
  {
  }

  /** The first symbol of a group, and the second. */
  lemma TwoSymbols(a: nat, v: nat, rest: seq<char>)
    requires a < 256 && v < 64 && v / 16 == a % 4
    ensures B64Decode([Symbol(a / 4)] + ([Symbol(v)] + rest)) == Emit(a, Scan(rest, 2, v % 16, 0))
  {
    TakesSymbol(a / 4, [Symbol(v)] + rest, 0, 0, 0);
    TakesSymbol(v, rest, 1, a / 4, 0);
  }

  lemma LastByte(a: nat)
    requires a < 256
    ensures B64Decode([Symbol(a / 4), Symbol(a % 4 * 16), PAD, PAD]) == Some([a as Byte])
  {
    Bits(a, 0, 0);
    assert a % 4 * 16 % 16 == 0 && [a as Byte] + [] == [a as Byte];
    TwoSymbols(a, a % 4 * 16, [PAD, PAD]);
    TakesPadding(2);
    assert [Symbol(a / 4)] + ([Symbol(a % 4 * 16)] + [PAD, PAD]) == [Symbol(a / 4), Symbol(a % 4 * 16), PAD, PAD];
  }

  lemma LastTwoBytes(a: nat, b: nat)
    requires a < 256 && b < 256
    ensures B64Decode([Symbol(a / 4), Symbol(a % 4 * 16 + b / 16), Symbol(b % 16 * 4), PAD]) == Some([a as Byte, b as Byte])
  {
    Bits(a, b, 0);
    var v, w := a % 4 * 16 + b / 16, b % 16 * 4;
    TwoSymbols(a, v, [Symbol(w)] + [PAD]);
    TakesSymbol(w, [PAD], 2, v % 16, 0);
    TakesPadding(3);
    assert w % 4 == 0 && [b as Byte] + [] == [b as Byte] && [a as Byte] + [b as Byte] == [a as Byte, b as Byte];
    assert [Symbol(a / 4)] + ([Symbol(v)] + ([Symbol(w)] + [PAD])) == [Symbol(a / 4), Symbol(v), Symbol(w), PAD];
  }

  /** A full group of four symbols. */
  lemma ThreeBytes(a: nat, b: nat, c: nat, rest: seq<char>)
    requires a < 256 && b < 256 && c < 256
    ensures B64Decode(Group(a, b, c) + rest) == Emit(a, Emit(b, Emit(c, B64Decode(rest))))
  {
    Bits(a, b, c);
    var v, w := a % 4 * 16 + b / 16, b % 16 * 4 + c / 64;
    TwoSymbols(a, v, [Symbol(w)] + ([Symbol(c % 64)] + rest));
    TakesSymbol(w, [Symbol(c % 64)] + rest, 2, v % 16, 0);
    TakesSymbol(c % 64, rest, 3, w % 4, 0);
    assert [Symbol(a / 4)] + ([Symbol(v)] + ([Symbol(w)] + ([Symbol(c % 64)] + rest))) ==
           Group(a, b, c) + rest;
  }

  /** Decoding undoes encoding, for every payload. */
  lemma {:induction false} DecodeUndoesEncode(p: seq<Byte>)
    ensures B64Decode(B64Encode(p)) == Some(p)
  {
    if |p| == 1 {
      LastByte(p[0] as int);
      assert p == [p[0]];
    } else if |p| == 2 {
      LastTwoBytes(p[0] as int, p[1] as int);
      assert p == [p[0], p[1]];
    } else if |p| > 2 {
      DecodeUndoesEncode(p[3..]);
      ThreeBytes(p[0] as int, p[1] as int, p[2] as int, B64Encode(p[3..]));
      assert p == [p[0]] + ([p[1]] + ([p[2]] + p[3..]));
    }
  }

  /** The padding of `s`, `k` symbols of it, comes last. */
  predicate PaddedBy(s: seq<char>, k: nat) {
    && k <= |s| && (forall i | |s| - k <= i < |s| :: s[i] == PAD)
    && forall i | 0 <= i < |s| - k :: s[i] != PAD && s[i] as int < 128
  }

  lemma {:induction false} StripIs(s: seq<char>, k: nat)
    requires PaddedBy(s, k)
    ensures RStrip(s) == s[..|s| - k]
  {
    if k > 0 {
      StripIs(s[..|s| - 1], k - 1);
      assert s[..|s| - 1][..|s| - k] == s[..|s| - k];
    }
  }

  function Missing(p: seq<Byte>): nat { (3 - |p| % 3) % 3 }

  lemma PrependSymbols(head: seq<char>, s: seq<char>, k: nat)
    requires PaddedBy(head, 0) && PaddedBy(s, k)
    ensures PaddedBy(head + s, k)
  {
  }

  /** Padding comes last. */
  lemma {:induction false} PaddingIsLast(p: seq<Byte>)
    ensures PaddedBy(B64Encode(p), Missing(p))
  {
    if |p| > 2 {
      PaddingIsLast(p[3..]);
      assert Missing(p[3..]) == Missing(p) by { assert |p[3..]| % 3 == |p| % 3; }
      PrependSymbols(Group(p[0] as int, p[1] as int, p[2] as int), B64Encode(p[3..]), Missing(p));
    }
  }

  lemma RepadStripped(s: seq<char>, k: nat)
    requires PaddedBy(s, k) && k < 4 && |s| % 4 == 0
    ensures Repad(s[..|s| - k]) == s
  {
    var t := s[..|s| - k];
    assert (4 - |t| % 4) % 4 == k;
    assert s == t + s[|s| - k..];
  }

  /** Padding by the length undoes stripping. */
  lemma RepadUndoesStrip(p: seq<Byte>)
    ensures Repad(RStrip(B64Encode(p))) == B64Encode(p)
  {
    PaddingIsLast(p);
    StripIs(B64Encode(p), Missing(p));
    RepadStripped(B64Encode(p), Missing(p));
  }

  // The signed header.

  function Join(fields: seq<string>): string
    requires fields != []
  {
    if |fields| == 1 then fields[0] else fields[0] + [NUL] + Join(fields[1..])
  }

  predicate NulFree(fields: seq<string>) { forall i | 0 <= i < |fields| :: NUL !in fields[i] }

  /** The text up to the first NUL. */
  function Head(s: string): string { if s == [] || s[0] == NUL then [] else [s[0]] + Head(s[1..]) }

  lemma {:induction false} HeadOf(x: string, rest: string)
    requires NUL !in x && (rest == [] || rest[0] == NUL)
    ensures Head(x + rest) == x
  {
    if x == [] {
      assert x + rest == rest;
    } else {
      HeadOf(x[1..], rest);
      assert (x + rest)[1..] == x[1..] + rest;
    }
  }

  lemma HeadOfJoin(fields: seq<string>)
    requires fields != [] && NulFree(fields)
    ensures Head(Join(fields)) == fields[0]
    ensures |fields| == 1 ==> |Join(fields)| == |fields[0]|
    ensures |fields| > 1 ==> |Join(fields)| > |fields[0]| && Join(fields)[|fields[0]| + 1..] == Join(fields[1..])
  {
    if |fields| == 1 {
      HeadOf(fields[0], []);
      assert fields[0] + [] == fields[0];
    } else {
      var rest := [NUL] + Join(fields[1..]);
      HeadOf(fields[0], rest);
      assert fields[0] + rest == Join(fields);
    }
  }

  /** Joined fields determine the fields and how many there are: no signature over one
      kind of material is a signature over another. */
  lemma {:induction false} JoinIsInjective(a: seq<string>, b: seq<string>)
    requires a != [] && b != [] && NulFree(a) && NulFree(b) && Join(a) == Join(b)
    ensures a == b
  {
    HeadOfJoin(a);
    HeadOfJoin(b);
    if |a| > 1 && |b| > 1 {
      JoinIsInjective(a[1..], b[1..]);
      assert a == [a[0]] + a[1..] && b == [b[0]] + b[1..];
    }
  }

  lemma {:induction false} JoinSnoc(fields: seq<string>, last: string)
    requires fields != []
    ensures Join(fields + [last]) == Join(fields) + [NUL] + last
  {
    if |fields| > 1 {
      JoinSnoc(fields[1..], last);
      assert (fields + [last])[1..] == fields[1..] + [last];
    } else {
      assert (fields + [last])[1..] == [last];
    }
  }

  /** A keyed digest; a hex digest is never empty. */
  type Mac = (string, string) -> string

  function PrincipalMaterial(subject: string, tenant: string, organization: string): string {
    Join([subject, tenant, organization])
  }

  function ContextMaterial(subject: string, tenant: string, organization: string, encoded: seq<char>): string {
    PrincipalMaterial(subject, tenant, organization) + [NUL] + encoded
  }

  lemma ContextMaterialIsJoined(subject: string, tenant: string, organization: string, encoded: seq<char>)
    ensures ContextMaterial(subject, tenant, organization, encoded) == Join([subject, tenant, organization, encoded])
  {
    JoinSnoc([subject, tenant, organization], encoded);
    assert [subject, tenant, organization] + [encoded] == [subject, tenant, organization, encoded];
  }

  datatype EncodeError = TooLarge

  function EncodeContext(payload: seq<Byte>): Result<seq<char>, EncodeError> {
    if |payload| > MAX_CONTEXT then Err(TooLarge) else Ok(RStrip(B64Encode(payload)))
  }

  function DecodeVerified(mac: Mac, token: string, subject: string, tenant: string, organization: string,
                          encoded: seq<char>, supplied: string): Option<seq<Byte>> {
    if token == "" || subject == "" || encoded == [] || supplied == "" then None
    else if |encoded| > MAX_CONTEXT * 2 then None
    else if exists i | 0 <= i < |encoded| :: encoded[i] as int >= 128 then None
    else if supplied != mac(token, ContextMaterial(subject, tenant, organization, encoded)) then None
    else
      var payload := B64Decode(Repad(encoded));
      if payload.None? || |payload.value| > MAX_CONTEXT then None else payload
  }

  /** Every non-empty payload within the bound comes back, when signed with the same key. */
  lemma VerifiedRoundTrip(mac: Mac, token: string, subject: string, tenant: string, organization: string, payload: seq<Byte>)
    requires token != "" && subject != "" && payload != []
    requires forall t, m :: mac(t, m) != ""
    ensures var encoded := EncodeContext(payload);
      if |payload| > MAX_CONTEXT then encoded == Err(TooLarge)
      else
        && encoded.Ok?
        && DecodeVerified(mac, token, subject, tenant, organization, encoded.value,
                          mac(token, ContextMaterial(subject, tenant, organization, encoded.value))) == Some(payload)
  {
    if |payload| <= MAX_CONTEXT {
      PaddingIsLast(payload);
      StripIs(B64Encode(payload), Missing(payload));
      RepadUndoesStrip(payload);
      DecodeUndoesEncode(payload);
    }
  }

  /** With a collision-free digest, a signature issued for one principal and context
      verifies for no other, and a principal signature verifies for no context. */
  lemma SignatureBindsEverything(mac: Mac, token: string, subject: string, tenant: string, organization: string,
                                 encoded: seq<char>, issued: seq<string>)
    requires forall t, m, n :: mac(t, m) == mac(t, n) ==> m == n
    requires issued != [] && NulFree(issued) && NulFree([subject, tenant, organization, encoded])
    requires DecodeVerified(mac, token, subject, tenant, organization, encoded, mac(token, Join(issued))).Some?
    ensures issued == [subject, tenant, organization, encoded]
  {
    ContextMaterialIsJoined(subject, tenant, organization, encoded);
    JoinIsInjective(issued, [subject, tenant, organization, encoded]);
  }
}
