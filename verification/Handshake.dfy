/**
 Capability negotiation (MySQL Client/Server Protocol, section 14.2.5): the proxy clears the bits it cannot
 support from the backend's greeting and from the client's response, patching both packets in place.
 */
module Handshake {
  import opened Common

  type octet = bv8

  const CLIENT_CONNECT_WITH_DB: bv32 := 0x0000_0008
  const CLIENT_COMPRESS: bv32 := 0x0000_0020
  const CLIENT_LOCAL_FILES: bv32 := 0x0000_0080
  const CLIENT_SSL: bv32 := 0x0000_0800
  const CLIENT_SECURE_CONNECTION: bv32 := 0x0000_8000
  const CLIENT_PLUGIN_AUTH_LENENC_CLIENT_DATA: bv32 := 0x0020_0000
  const CLIENT_ZSTD_COMPRESSION_ALGORITHM: bv32 := 0x0400_0000
  const CLIENT_QUERY_ATTRIBUTES: bv32 := 0x0800_0000

  const MASKED: bv32 :=
    CLIENT_SSL | CLIENT_COMPRESS | CLIENT_LOCAL_FILES | CLIENT_ZSTD_COMPRESSION_ALGORITHM | CLIENT_QUERY_ATTRIBUTES

  predicate Has(capabilities: bv32, flag: bv32) {
    capabilities & flag != 0
  }

  function Unmasked(capabilities: bv32): bv32 {
    capabilities & !MASKED
  }

  // ----- Words of four octets --------------------------------------------------------------------------------------

  function Word(b0: octet, b1: octet, b2: octet, b3: octet): bv32 {
    (b0 as bv32) | ((b1 as bv32) << 8) | ((b2 as bv32) << 16) | ((b3 as bv32) << 24)
  }

  function Octet(word: bv32, shift: nat): octet
    requires shift == 0 || shift == 8 || shift == 16 || shift == 24
  {
    ((word >> shift) & 0xFF) as bv8
  }

  lemma {:induction false} OctetBack(word: bv32, shift: nat)
    requires shift == 0 || shift == 8 || shift == 16 || shift == 24
    ensures Octet(word, shift) as bv32 == (word >> shift) & 0xFF
  {
  }

  lemma {:induction false} PartsOfWord(word: bv32)
    ensures ((word >> 0) & 0xFF) | (((word >> 8) & 0xFF) << 8) | (((word >> 16) & 0xFF) << 16)
            | (((word >> 24) & 0xFF) << 24) == word
  {
  }

  lemma {:induction false} OctetsOfWord(word: bv32)
    ensures Word(Octet(word, 0), Octet(word, 8), Octet(word, 16), Octet(word, 24)) == word
  {
    hide Octet;
    OctetBack(word, 0);
    OctetBack(word, 8);
    OctetBack(word, 16);
    OctetBack(word, 24);
    PartsOfWord(word);
  }

  lemma {:induction false} HalvesOfWord(word: bv32)
    ensures Word(Octet(word, 0), Octet(word, 8), 0, 0) == word & 0xFFFF
  {
  }

  lemma {:induction false} MaskingTwice(word: bv32)
    ensures Unmasked(Unmasked(word)) == Unmasked(word)
    ensures word & 0xFFFF == word ==> Unmasked(word) & 0xFFFF == Unmasked(word)
  {
  }

  lemma {:induction false} FlagsSurvive(word: bv32)
    ensures Has(Unmasked(word), CLIENT_CONNECT_WITH_DB) == Has(word, CLIENT_CONNECT_WITH_DB)
    ensures Has(Unmasked(word), CLIENT_SECURE_CONNECTION) == Has(word, CLIENT_SECURE_CONNECTION)
    ensures Has(Unmasked(word), CLIENT_PLUGIN_AUTH_LENENC_CLIENT_DATA)
         == Has(word, CLIENT_PLUGIN_AUTH_LENENC_CLIENT_DATA)
  {
  }

  // ----- The greeting ------------------------------------------------------------------------------------------------

  /** The first NUL at or after a position. */
  function NulAt(s: seq<octet>, i: nat): (at: Option<nat>)
    ensures at.Some? ==> i <= at.value < |s| && s[at.value] == 0
    ensures at.Some? ==> forall k :: i <= k < at.value ==> s[k] != 0
    ensures at.None? ==> forall k :: i <= k < |s| ==> s[k] != 0
    decreases |s| - i
  {
    if i >= |s| then None else if s[i] == 0 then Some(i) else NulAt(s, i + 1)
  }

  datatype HandshakeError = Malformed | ForbiddenCapability | Rejected | Disconnected

  /** Where the two halves of the capability field stand; old greetings have only the lower one. */
  datatype Layout = Layout(lower: nat, upper: Option<nat>)

  predicate InGreeting(s: seq<octet>, at: Layout) {
    && 14 <= at.lower && at.lower + 2 <= |s|
    && (at.upper.Some? ==> at.upper.value == at.lower + 5 && at.lower + 7 <= |s|)
  }

  function LayoutOf(s: seq<octet>): (r: Option<Layout>)
    ensures r.Some? ==> InGreeting(s, r.value)
  {
    if s == [] || s[0] != 10 then None
    else
      var nul := NulAt(s, 1);
      if nul.None? || |s| < nul.value + 16 then None
      else
        var lower := nul.value + 14;
        if |s| == lower + 2 then Some(Layout(lower, None))
        else if |s| < lower + 7 then None
        else Some(Layout(lower, Some(lower + 5)))
  }

  function Capabilities(s: seq<octet>, at: Layout): bv32
    requires InGreeting(s, at)
  {
    if at.upper.Some? then Word(s[at.lower], s[at.lower + 1], s[at.upper.value], s[at.upper.value + 1])
    else Word(s[at.lower], s[at.lower + 1], 0, 0)
  }

  /** The greeting with the capability field replaced. */
  function Patched(s: seq<octet>, at: Layout, word: bv32): (r: seq<octet>)
    requires InGreeting(s, at)
    ensures |r| == |s|
  {
    var lower := s[at.lower := Octet(word, 0)][at.lower + 1 := Octet(word, 8)];
    if at.upper.Some? then lower[at.upper.value := Octet(word, 16)][at.upper.value + 1 := Octet(word, 24)] else lower
  }

  datatype Greeting = Greeting(payload: seq<octet>, capabilities: bv32, connectionId: seq<octet>)

  function MaskGreeting(s: seq<octet>): Result<Greeting, HandshakeError> {
    match LayoutOf(s)
    case None => Err(Malformed)
    case Some(at) =>
      var word := Unmasked(Capabilities(s, at));
      Ok(Greeting(Patched(s, at, word), word, s[at.lower - 13..at.lower - 9]))
  }

  /** Parses the greeting and clears the masked bits in a copy of it, in place. */
  method MaskServerHandshake(payload: seq<octet>) returns (r: Result<Greeting, HandshakeError>)
    ensures r == MaskGreeting(payload)
  {
    var layout := LayoutOf(payload);
    if layout.None? {
      return Err(Malformed);
    }
    var at := layout.value;
    var masked := Unmasked(Capabilities(payload, at));
    var out := new octet[|payload|](i requires 0 <= i < |payload| => payload[i]);
    assert out[..] == payload;
    out[at.lower], out[at.lower + 1] := Octet(masked, 0), Octet(masked, 8);
    if at.upper.Some? {
      out[at.upper.value], out[at.upper.value + 1] := Octet(masked, 16), Octet(masked, 24);
    }
    assert out[..] == Patched(payload, at, masked);
    return Ok(Greeting(out[..], masked, payload[at.lower - 13..at.lower - 9]));
  }

  /** A position before which two texts agree has the same first NUL in both. */
  lemma {:induction false} SameNul(s: seq<octet>, t: seq<octet>, i: nat, n: nat)
    requires i <= n <= |s| && n <= |t| && s[..n] == t[..n]
    requires NulAt(s, i).Some? && NulAt(s, i).value < n
    ensures NulAt(t, i) == NulAt(s, i)
    decreases n - i
  {
    assert s[i] == s[..n][i] == t[..n][i] == t[i];
    if s[i] != 0 {
      SameNul(s, t, i + 1, n);
    }
  }

  lemma {:induction false} PatchedLayout(s: seq<octet>, word: bv32)
    requires LayoutOf(s).Some?
    ensures LayoutOf(Patched(s, LayoutOf(s).value, word)) == LayoutOf(s)
  {
    var at := LayoutOf(s).value;
    var t := Patched(s, at, word);
    assert s[..at.lower] == t[..at.lower];
    SameNul(s, t, 1, at.lower);
    assert t[0] == s[0];
  }

  lemma {:induction false} PatchedCapabilities(s: seq<octet>, at: Layout, word: bv32)
    requires InGreeting(s, at) && (at.upper.None? ==> word & 0xFFFF == word)
    ensures Capabilities(Patched(s, at, word), at) == word
  {
    OctetsOfWord(word);
    HalvesOfWord(word);
  }

  lemma {:induction false} LowHalf(b0: octet, b1: octet)
    ensures Word(b0, b1, 0, 0) & 0xFFFF == Word(b0, b1, 0, 0)
  {
  }

  lemma {:induction false} MaskedReadsBack(s: seq<octet>)
    requires MaskGreeting(s).Ok?
    ensures var greeting, at := MaskGreeting(s).value, LayoutOf(s).value;
            && LayoutOf(greeting.payload) == Some(at) && Capabilities(greeting.payload, at) == greeting.capabilities
            && Unmasked(greeting.capabilities) == greeting.capabilities
  {
    var at := LayoutOf(s).value;
    var word := Capabilities(s, at);
    MaskingTwice(word);
    if at.upper.None? {
      LowHalf(s[at.lower], s[at.lower + 1]);
    }
    PatchedLayout(s, Unmasked(word));
    PatchedCapabilities(s, at, Unmasked(word));
  }

  /**
   The masked greeting has the length of the backend's and differs from it in the capability field alone; read
   again it has the masked set, and masking it again changes nothing.
   */
  lemma {:induction false} MaskingIsExact(s: seq<octet>)
    requires MaskGreeting(s).Ok?
    ensures var greeting, at := MaskGreeting(s).value, LayoutOf(s).value;
            && |greeting.payload| == |s|
            && (forall k :: 0 <= k < |s| && greeting.payload[k] != s[k] ==>
                  k == at.lower || k == at.lower + 1
                  || (at.upper.Some? && (k == at.upper.value || k == at.upper.value + 1)))
            && greeting.capabilities == Unmasked(Capabilities(s, at))
            && LayoutOf(greeting.payload) == Some(at) && Capabilities(greeting.payload, at) == greeting.capabilities
            && MaskGreeting(greeting.payload) == Ok(greeting)
  {
    hide LayoutOf, Word, Octet, Patched, Unmasked, Capabilities, NulAt;
    var at := LayoutOf(s).value;
    MaskedReadsBack(s);
    PatchedInPlace(s, at, Unmasked(Capabilities(s, at)));
  }

  lemma {:induction false} PatchedInPlace(s: seq<octet>, at: Layout, word: bv32)
    requires InGreeting(s, at)
    ensures var t := Patched(s, at, word);
            && (forall k :: 0 <= k < |s| && t[k] != s[k] ==>
                  k == at.lower || k == at.lower + 1
                  || (at.upper.Some? && (k == at.upper.value || k == at.upper.value + 1)))
            && Patched(t, at, word) == t && t[at.lower - 13..at.lower - 9] == s[at.lower - 13..at.lower - 9]
  {
    hide Octet;
    var t := Patched(s, at, word);
    assert Patched(t, at, word) == t;
    assert t[at.lower - 13..at.lower - 9] == s[at.lower - 13..at.lower - 9];
  }

  // ----- A greeting as the protocol lays it out ----------------------------------------------------------------------

  /** A version 10 greeting (section 14.2.5); `tail` is everything behind the upper half of the capabilities. */
  datatype GreetingPacket = GreetingPacket(version: seq<octet>, connectionId: seq<octet>, challenge: seq<octet>,
                                           filler: octet, capabilities: bv32, charset: octet, status: seq<octet>,
                                           tail: seq<octet>)

  predicate GreetingLaidOut(greeting: GreetingPacket) {
    && 0 !in greeting.version && |greeting.connectionId| == 4 && |greeting.challenge| == 8 && |greeting.status| == 2
  }

  function BeforeLower(greeting: GreetingPacket): seq<octet> {
    [10] + (greeting.version + [0]) + greeting.connectionId + greeting.challenge + [greeting.filler]
  }

  function BetweenHalves(greeting: GreetingPacket): seq<octet> {
    [greeting.charset] + greeting.status
  }

  function GreetingOctets(greeting: GreetingPacket): seq<octet> {
    var word := greeting.capabilities;
    BeforeLower(greeting) + [Octet(word, 0), Octet(word, 8)] + BetweenHalves(greeting)
    + [Octet(word, 16), Octet(word, 24)] + greeting.tail
  }

  /** The capabilities that stay: all but TLS, compression, local files, Zstandard and query attributes. */
  lemma {:induction false} MaskedBits(word: bv32)
    ensures Unmasked(word) == word & 0xF3FF_F75F
  {
  }

  lemma {:induction false} NulEnds(before: seq<octet>, text: seq<octet>, rest: seq<octet>)
    requires 0 !in text
    ensures NulAt(before + (text + [0]) + rest, |before|) == Some(|before| + |text|)
  {
    var s := before + (text + [0]) + rest;
    assert s[|before| + |text|] == 0;
    assert forall k :: |before| <= k < |before| + |text| ==> s[k] == text[k - |before|];
  }

  lemma {:induction false} FrontIsRead(greeting: GreetingPacket, rest: seq<octet>)
    requires GreetingLaidOut(greeting)
    ensures var before, nul := BeforeLower(greeting), 1 + |greeting.version|;
            && (before + rest)[0] == 10 && NulAt(before + rest, 1) == Some(nul) && |before| == nul + 14
            && (before + rest)[nul + 1..nul + 5] == greeting.connectionId
  {
    var later := greeting.connectionId + greeting.challenge + [greeting.filler] + rest;
    NulEnds([10], greeting.version, later);
    assert BeforeLower(greeting) + rest == [10] + (greeting.version + [0]) + later;
  }

  lemma {:induction false} HalvesStand(a: seq<octet>, w: seq<octet>, b: seq<octet>, v: seq<octet>, c: seq<octet>)
    requires |w| == 2 && |b| == 3 && |v| == 2
    ensures var s, n := a + w + b + v + c, |a|;
            && |s| >= n + 7 && s[n] == w[0] && s[n + 1] == w[1] && s[n + 5] == v[0] && s[n + 6] == v[1]
            && s == a + (w + b + v + c)
            && forall w2: seq<octet>, v2: seq<octet> :: |w2| == 2 && |v2| == 2 ==>
                 s[n := w2[0]][n + 1 := w2[1]][n + 5 := v2[0]][n + 6 := v2[1]] == a + w2 + b + v2 + c
  {
  }

  function LayoutFor(greeting: GreetingPacket): Layout {
    var n := |BeforeLower(greeting)|;
    Layout(n, Some(n + 5))
  }

  lemma {:induction false} GreetingParts(greeting: GreetingPacket, kept: bv32)
    requires GreetingLaidOut(greeting)
    ensures var word, n, s := greeting.capabilities, |BeforeLower(greeting)|, GreetingOctets(greeting);
            && |s| >= n + 7 && s[n] == Octet(word, 0) && s[n + 1] == Octet(word, 8)
            && s[n + 5] == Octet(word, 16) && s[n + 6] == Octet(word, 24)
            && s == BeforeLower(greeting) + s[n..]
            && Patched(s, LayoutFor(greeting), kept) == GreetingOctets(greeting.(capabilities := kept))
  {
    hide Octet, BeforeLower;
    var a, b, word := BeforeLower(greeting), BetweenHalves(greeting), greeting.capabilities;
    var s := GreetingOctets(greeting);
    HalvesStand(a, [Octet(word, 0), Octet(word, 8)], b, [Octet(word, 16), Octet(word, 24)], greeting.tail);
    SameBefore(greeting, kept);
    var w, v := [Octet(kept, 0), Octet(kept, 8)], [Octet(kept, 16), Octet(kept, 24)];
    assert s[|a| := w[0]][|a| + 1 := w[1]][|a| + 5 := v[0]][|a| + 6 := v[1]] == a + w + b + v + greeting.tail;
  }

  lemma {:induction false} SameBefore(greeting: GreetingPacket, word: bv32)
    ensures BeforeLower(greeting.(capabilities := word)) == BeforeLower(greeting)
  {
  }

  lemma {:induction false} LayoutIsFound(greeting: GreetingPacket)
    requires GreetingLaidOut(greeting)
    ensures var s, at := GreetingOctets(greeting), LayoutFor(greeting);
            && LayoutOf(s) == Some(at) && Capabilities(s, at) == greeting.capabilities
            && s[at.lower - 13..at.lower - 9] == greeting.connectionId
  {
    hide Octet, Word, NulAt, BeforeLower, GreetingOctets;
    var n, s := |BeforeLower(greeting)|, GreetingOctets(greeting);
    GreetingParts(greeting, 0);
    FrontIsRead(greeting, s[n..]);
    OctetsOfWord(greeting.capabilities);
  }

  lemma {:induction false} GreetingIsMasked(greeting: GreetingPacket, word: bv32)
    requires GreetingLaidOut(greeting) && word == Unmasked(greeting.capabilities)
    ensures MaskGreeting(GreetingOctets(greeting))
         == Ok(Greeting(GreetingOctets(greeting.(capabilities := word)), word, greeting.connectionId))
  {
    hide Octet, Unmasked, LayoutOf, Capabilities, GreetingOctets, BeforeLower, Patched;
    GreetingParts(greeting, word);
    LayoutIsFound(greeting);
  }

  /** A greeting is read where the protocol puts its capabilities and its connection id, and goes on with all but the
      supported capabilities cleared. */
  lemma {:induction false} GreetingIsRead(greeting: GreetingPacket, word: bv32)
    requires GreetingLaidOut(greeting) && word == greeting.capabilities & 0xF3FF_F75F
    ensures MaskGreeting(GreetingOctets(greeting))
         == Ok(Greeting(GreetingOctets(greeting.(capabilities := word)), word, greeting.connectionId))
  {
    hide MaskGreeting, GreetingOctets, GreetingLaidOut, Unmasked;
    MaskedBits(greeting.capabilities);
    GreetingIsMasked(greeting, word);
  }

  // ----- The client's response ---------------------------------------------------------------------------------------

  datatype Client = Client(capabilities: bv32, username: seq<octet>, database: Option<seq<octet>>)

  /** The end of the authentication response that starts at a position. */
  function AuthEnd(s: seq<octet>, i: nat, capabilities: bv32): (end: Option<nat>)
    requires i <= |s|
    ensures end.Some? ==> i < end.value <= |s|
  {
    if Has(capabilities, CLIENT_PLUGIN_AUTH_LENENC_CLIENT_DATA) then LenencEnd(s, i)
    else if Has(capabilities, CLIENT_SECURE_CONNECTION) then
      if i < |s| && i + 1 + s[i] as nat <= |s| then Some(i + 1 + s[i] as nat) else None
    else
      var nul := NulAt(s, i);
      if nul.Some? then Some(nul.value + 1) else None
  }

  function Uint(s: seq<octet>): nat {
    if s == [] then 0 else s[0] as nat + 256 * Uint(s[1..])
  }

  /** The end of a length-encoded string. */
  function LenencEnd(s: seq<octet>, i: nat): (end: Option<nat>)
    requires i <= |s|
    ensures end.Some? ==> i < end.value <= |s|
  {
    if i == |s| || s[i] == 0xFB then None
    else
      var width := if s[i] == 0xFC then 2 else if s[i] == 0xFD then 3 else if s[i] == 0xFE then 8 else 0;
      if i + 1 + width > |s| then None
      else
        var length := if width == 0 then s[i] as nat else Uint(s[i + 1..i + 1 + width]);
        if i + 1 + width + length <= |s| then Some(i + 1 + width + length) else None
  }

  function DatabaseAt(s: seq<octet>, i: nat, capabilities: bv32): Option<seq<octet>>
    requires i <= |s|
  {
    if !Has(capabilities, CLIENT_CONNECT_WITH_DB) then None
    else
      var nul := NulAt(s, i);
      if nul.None? || nul.value == i then None else Some(s[i..nul.value])
  }

  /** Everything behind the capability word: user, authentication response and database. */
  function ParseTail(s: seq<octet>, capabilities: bv32): Result<Client, HandshakeError>
    requires |s| > 32
  {
    var nul := NulAt(s, 32);
    if nul.None? then Err(Malformed)
    else
      var auth := AuthEnd(s, nul.value + 1, capabilities);
      if auth.None? then Err(Malformed)
      else Ok(Client(capabilities, s[32..nul.value], DatabaseAt(s, auth.value, capabilities)))
  }

  function ParseClient(s: seq<octet>): Result<Client, HandshakeError> {
    if |s| < 4 then Err(Malformed)
    else
      var capabilities := Word(s[0], s[1], s[2], s[3]);
      if |s| <= 32 then Ok(Client(capabilities, [], None)) else ParseTail(s, capabilities)
  }

  // ----- A response as the protocol lays it out ----------------------------------------------------------------------

  /** A response (section 14.2.5): the capabilities, packet limit, character set and filler, a user, an authentication
      response behind its length, a database if the capabilities announce one, and whatever else they announce. */
  datatype Response = Response(capabilities: bv32, fixed: seq<octet>, user: seq<octet>, length: seq<octet>,
                               auth: seq<octet>, database: seq<octet>, tail: seq<octet>)

  /** Octets that say a length (section 14.1.1.1), in a form that is wide enough for it. */
  predicate SaysLength(coded: seq<octet>, v: nat) {
    || (|coded| == 1 && coded[0] as nat == v < 0xFB)
    || (|coded| == 3 && coded[0] == 0xFC && Uint(coded[1..]) == v)
    || (|coded| == 4 && coded[0] == 0xFD && Uint(coded[1..]) == v)
    || (|coded| == 9 && coded[0] == 0xFE && Uint(coded[1..]) == v)
  }

  predicate LaidOut(response: Response) {
    && |response.fixed| == 28 && 0 !in response.user && 0 !in response.database
    && (if Has(response.capabilities, CLIENT_PLUGIN_AUTH_LENENC_CLIENT_DATA) then
          SaysLength(response.length, |response.auth|)
        else if Has(response.capabilities, CLIENT_SECURE_CONNECTION) then
          |response.length| == 1 && response.length[0] as nat == |response.auth|
        else response.length == [] && 0 !in response.auth)
  }

  /** Where neither way of giving a length is agreed on, a NUL ends the authentication response. */
  function AuthOctets(response: Response): seq<octet> {
    response.length + response.auth
    + (if Has(response.capabilities, CLIENT_PLUGIN_AUTH_LENENC_CLIENT_DATA)
          || Has(response.capabilities, CLIENT_SECURE_CONNECTION) then [] else [0])
  }

  function DatabaseOctets(response: Response): seq<octet> {
    if Has(response.capabilities, CLIENT_CONNECT_WITH_DB) then response.database + [0] else []
  }

  function HeadOctets(response: Response): (r: seq<octet>)
    ensures |r| == 4 + |response.fixed|
  {
    var word := response.capabilities;
    [Octet(word, 0), Octet(word, 8), Octet(word, 16), Octet(word, 24)] + response.fixed
  }

  function ResponseOctets(response: Response): seq<octet> {
    HeadOctets(response) + (response.user + [0]) + AuthOctets(response) + DatabaseOctets(response) + response.tail
  }

  lemma {:induction false} SmallOctet(b: octet)
    requires b as nat < 0xFB
    ensures b != 0xFB && b != 0xFC && b != 0xFD && b != 0xFE
  {
  }

  lemma {:induction false} LengthIsRead(before: seq<octet>, coded: seq<octet>, text: seq<octet>, rest: seq<octet>)
    requires SaysLength(coded, |text|)
    ensures LenencEnd(before + (coded + text) + rest, |before|) == Some(|before| + |coded| + |text|)
  {
    hide Uint;
    var s := before + (coded + text) + rest;
    assert s[|before|] == coded[0];
    assert s[|before| + 1..|before| + |coded|] == coded[1..];
    if |coded| == 1 {
      SmallOctet(coded[0]);
    }
  }

  lemma {:induction false} AuthIsRead(before: seq<octet>, response: Response, rest: seq<octet>)
    requires LaidOut(response)
    ensures AuthEnd(before + AuthOctets(response) + rest, |before|, response.capabilities)
         == Some(|before| + |AuthOctets(response)|)
  {
    hide Has, SaysLength, LenencEnd, NulAt;
    var s := before + AuthOctets(response) + rest;
    assert response.length + response.auth + [] == response.length + response.auth;
    if Has(response.capabilities, CLIENT_PLUGIN_AUTH_LENENC_CLIENT_DATA) {
      LengthIsRead(before, response.length, response.auth, rest);
    } else if Has(response.capabilities, CLIENT_SECURE_CONNECTION) {
      assert s[|before|] == response.length[0];
    } else {
      assert [] + response.auth == response.auth;
      NulEnds(before, response.auth, rest);
    }
  }

  lemma {:induction false} DatabaseIsRead(before: seq<octet>, response: Response)
    requires LaidOut(response)
    ensures DatabaseAt(before + DatabaseOctets(response) + response.tail, |before|, response.capabilities)
         == if Has(response.capabilities, CLIENT_CONNECT_WITH_DB) && response.database != [] then
              Some(response.database)
            else None
  {
    if Has(response.capabilities, CLIENT_CONNECT_WITH_DB) {
      NulEnds(before, response.database, response.tail);
      var s := before + DatabaseOctets(response) + response.tail;
      assert s[|before|..|before| + |response.database|] == response.database;
    }
  }

  /** A response is read as the user it names and the database it asks for, if it asks for one. */
  lemma {:induction false} ResponseIsRead(response: Response)
    requires LaidOut(response)
    ensures ParseClient(ResponseOctets(response))
         == Ok(Client(response.capabilities, response.user,
                      if Has(response.capabilities, CLIENT_CONNECT_WITH_DB) && response.database != [] then
                        Some(response.database)
                      else None))
  {
    hide Has, AuthEnd, AuthOctets, DatabaseAt, DatabaseOctets, Octet, Word, NulAt;
    var head := HeadOctets(response);
    var auth, database := AuthOctets(response), DatabaseOctets(response);
    var s := ResponseOctets(response);
    HeadIsRead(response, (response.user + [0]) + auth + database + response.tail);
    FourParts(head, response.user + [0], auth, database, response.tail);
    NulEnds(head, response.user, auth + database + response.tail);
    AuthIsRead(head + (response.user + [0]), response, database + response.tail);
    DatabaseIsRead(head + (response.user + [0]) + auth, response);
    Middle(head, response.user, auth + database + response.tail);
  }

  lemma {:induction false} HeadIsRead(response: Response, rest: seq<octet>)
    requires |response.fixed| == 28
    ensures var s := HeadOctets(response) + rest; Word(s[0], s[1], s[2], s[3]) == response.capabilities
  {
    OctetsOfWord(response.capabilities);
  }

  lemma {:induction false} FourParts(a: seq<octet>, b: seq<octet>, c: seq<octet>, d: seq<octet>, e: seq<octet>)
    ensures a + b + c + d + e == a + (b + c + d + e) == a + b + (c + d + e) == a + b + c + (d + e)
  {
  }

  lemma {:induction false} Middle(a: seq<octet>, b: seq<octet>, c: seq<octet>)
    ensures (a + (b + [0]) + c)[|a|..|a| + |b|] == b
  {
  }

  /** The response as the backend gets it. */
  function ForwardedResponse(s: seq<octet>, word: bv32): (r: seq<octet>)
    requires |s| >= 4
    ensures |r| == |s|
  {
    [Octet(word, 0), Octet(word, 8), Octet(word, 16), Octet(word, 24)] + s[4..]
  }

  method PatchResponse(response: array<octet>, word: bv32)
    requires response.Length >= 4
    modifies response
    ensures response[..] == ForwardedResponse(old(response[..]), word)
  {
    response[0], response[1] := Octet(word, 0), Octet(word, 8);
    response[2], response[3] := Octet(word, 16), Octet(word, 24);
    assert response[4..] == old(response[4..]) == old(response[..])[4..];
    assert response[..] == response[..4] + response[4..];
    assert response[..4] == [Octet(word, 0), Octet(word, 8), Octet(word, 16), Octet(word, 24)];
  }

  /** A response that asks for TLS is refused; any other goes on with the masked bits cleared. */
  method ForwardResponse(payload: seq<octet>) returns (r: Result<seq<octet>, HandshakeError>)
    ensures r.Ok? <==> ParseClient(payload).Ok? && !Has(ParseClient(payload).value.capabilities, CLIENT_SSL)
    ensures r.Ok? ==> r.value == ForwardedResponse(payload, Unmasked(ParseClient(payload).value.capabilities))
    ensures r == Err(ForbiddenCapability) <==>
              ParseClient(payload).Ok? && Has(ParseClient(payload).value.capabilities, CLIENT_SSL)
  {
    var client := ParseClient(payload);
    if client.Err? {
      return Err(Malformed);
    }
    if Has(client.value.capabilities, CLIENT_SSL) {
      return Err(ForbiddenCapability);
    }
    var forwarded := new octet[|payload|](i requires 0 <= i < |payload| => payload[i]);
    assert forwarded[..] == payload;
    PatchResponse(forwarded, Unmasked(client.value.capabilities));
    return Ok(forwarded[..]);
  }

  /** Two texts of one length agree from a position on. */
  predicate AgreeFrom(s: seq<octet>, t: seq<octet>, i: nat) {
    |s| == |t| && forall k :: i <= k < |s| ==> s[k] == t[k]
  }

  lemma {:induction false} SameSlice(s: seq<octet>, t: seq<octet>, i: nat, j: nat)
    requires AgreeFrom(s, t, i) && i <= j <= |s|
    ensures s[i..j] == t[i..j]
  {
  }

  lemma {:induction false} SameLenenc(s: seq<octet>, t: seq<octet>, i: nat)
    requires AgreeFrom(s, t, i) && i <= |s|
    ensures LenencEnd(s, i) == LenencEnd(t, i)
  {
    if i < |s| {
      var width := if s[i] == 0xFC then 2 else if s[i] == 0xFD then 3 else if s[i] == 0xFE then 8 else 0;
      if i + 1 + width <= |s| {
        SameSlice(s, t, i + 1, i + 1 + width);
      }
    }
  }

  lemma {:induction false} SameAuth(s: seq<octet>, t: seq<octet>, i: nat, capabilities: bv32)
    requires AgreeFrom(s, t, i) && i <= |s|
    ensures AuthEnd(s, i, capabilities) == AuthEnd(t, i, capabilities)
  {
    SameLenenc(s, t, i);
    SameNulBehind(s, t, i);
  }

  lemma {:induction false} SameTail(s: seq<octet>, t: seq<octet>, capabilities: bv32)
    requires AgreeFrom(s, t, 32) && |s| > 32
    ensures ParseTail(t, capabilities) == ParseTail(s, capabilities)
  {
    SameNulBehind(s, t, 32);
    var nul := NulAt(s, 32);
    if nul.Some? {
      SameSlice(s, t, 32, nul.value);
      SameAuth(s, t, nul.value + 1, capabilities);
      var auth := AuthEnd(s, nul.value + 1, capabilities);
      if auth.Some? {
        SameNulBehind(s, t, auth.value);
        var end := NulAt(s, auth.value);
        if end.Some? {
          SameSlice(s, t, auth.value, end.value);
        }
      }
    }
  }

  lemma {:induction false} SameNulBehind(s: seq<octet>, t: seq<octet>, i: nat)
    requires AgreeFrom(s, t, i)
    ensures NulAt(s, i) == NulAt(t, i)
    decreases |s| - i
  {
    if i < |s| && s[i] != 0 {
      SameNulBehind(s, t, i + 1);
    }
  }

  /** No flag that decides how a response is read is among the masked ones. */
  lemma {:induction false} TailIgnoresMask(s: seq<octet>, word: bv32)
    requires |s| > 32
    ensures ParseTail(s, word).Ok? <==> ParseTail(s, Unmasked(word)).Ok?
    ensures ParseTail(s, word).Ok? ==>
              ParseTail(s, Unmasked(word)).value
              == Client(Unmasked(word), ParseTail(s, word).value.username, ParseTail(s, word).value.database)
  {
    FlagsSurvive(word);
  }

  /** The forwarded response has the length of the client's and reads as the same user and database. */
  lemma {:induction false} ForwardedReadsAlike(s: seq<octet>)
    requires ParseClient(s).Ok?
    ensures var client := ParseClient(s).value;
            var forwarded := ForwardedResponse(s, Unmasked(client.capabilities));
            && |forwarded| == |s| && forwarded[4..] == s[4..]
            && ParseClient(forwarded) == Ok(Client(Unmasked(client.capabilities), client.username, client.database))
  {
    var word := Word(s[0], s[1], s[2], s[3]);
    var forwarded := ForwardedResponse(s, Unmasked(word));
    OctetsOfWord(Unmasked(word));
    assert forwarded[4..] == s[4..];
    if |s| > 32 {
      SameTail(s, forwarded, Unmasked(word));
      TailIgnoresMask(s, word);
    }
  }

  // ----- What is in force --------------------------------------------------------------------------------------------

  /** The bits both sides set and the proxy supports. */
  function InForce(server: bv32, client: bv32): bv32 {
    Unmasked(client) & Unmasked(server)
  }

  lemma {:induction false} IntersectionsAgree(server: bv32, client: bv32)
    ensures Unmasked(server) & client == InForce(server, client)
    ensures server & Unmasked(client) == InForce(server, client)
    ensures InForce(server, client) & MASKED == 0
  {
  }

  /** What the proxy computes from a greeting and a response. */
  function Negotiated(greeting: seq<octet>, response: seq<octet>): bv32
    requires MaskGreeting(greeting).Ok? && ParseClient(response).Ok?
  {
    Unmasked(ParseClient(response).value.capabilities) & MaskGreeting(greeting).value.capabilities
  }

  /** The client's view: the greeting it was sent, and its own response. */
  lemma {:induction false} ClientAgrees(greeting: seq<octet>, response: seq<octet>)
    requires MaskGreeting(greeting).Ok? && ParseClient(response).Ok?
    ensures var sent, at := MaskGreeting(greeting).value.payload, LayoutOf(greeting).value;
            && LayoutOf(sent) == Some(at)
            && Capabilities(sent, at) & ParseClient(response).value.capabilities == Negotiated(greeting, response)
  {
    MaskingIsExact(greeting);
    IntersectionsAgree(Capabilities(greeting, LayoutOf(greeting).value), ParseClient(response).value.capabilities);
  }

  /** The backend's view: its own greeting, and the response it was given. */
  lemma {:induction false} BackendAgrees(greeting: seq<octet>, response: seq<octet>)
    requires MaskGreeting(greeting).Ok? && ParseClient(response).Ok?
    ensures var given := ForwardedResponse(response, Unmasked(ParseClient(response).value.capabilities));
            && ParseClient(given).Ok?
            && Capabilities(greeting, LayoutOf(greeting).value) & ParseClient(given).value.capabilities
               == Negotiated(greeting, response)
  {
    ForwardedReadsAlike(response);
    IntersectionsAgree(Capabilities(greeting, LayoutOf(greeting).value), ParseClient(response).value.capabilities);
  }

  /** No bit the proxy masks is ever in force. */
  lemma {:induction false} NothingMaskedInForce(greeting: seq<octet>, response: seq<octet>)
    requires MaskGreeting(greeting).Ok? && ParseClient(response).Ok?
    ensures Negotiated(greeting, response) & MASKED == 0
  {
    IntersectionsAgree(Capabilities(greeting, LayoutOf(greeting).value), ParseClient(response).value.capabilities);
  }

  // ----- The exchange that follows -----------------------------------------------------------------------------------

  /** The exchange is over after this backend packet. */
  predicate Concludes(packet: seq<octet>) {
    packet == [] || packet[0] == 0x00 || packet[0] == 0xFF
  }

  /** The client answers this backend packet; it says nothing to a fast-authentication success. */
  predicate IsAnswered(packet: seq<octet>) {
    !Concludes(packet) && !(packet[0] == 0x01 && |packet| > 1 && packet[1] == 0x03)
  }

  function Answers(packets: seq<seq<octet>>): nat {
    if packets == [] then 0
    else Answers(packets[..|packets| - 1]) + (if IsAnswered(packets[|packets| - 1]) then 1 else 0)
  }

  /**
   Relays until the backend concludes the phase: strictly in turn, each packet as it came, and one client packet
   for each backend packet that calls for one.
   */
  method RelayAuthentication(backend: seq<seq<octet>>, client: seq<seq<octet>>)
    returns (r: Result<bool, HandshakeError>, toClient: seq<seq<octet>>, toBackend: seq<seq<octet>>)
    ensures toClient <= backend && toBackend <= client
    ensures forall i :: 0 <= i < |toClient| - 1 ==> !Concludes(toClient[i])
    ensures r.Ok? || r.error == Rejected ==>
              toClient != [] && Concludes(toClient[|toClient| - 1]) && |toBackend| == Answers(toClient)
    ensures r.Ok? ==> toClient[|toClient| - 1] != [] && toClient[|toClient| - 1][0] == 0x00
    ensures r == Err(Rejected) ==> toClient[|toClient| - 1] != [] && toClient[|toClient| - 1][0] == 0xFF
    ensures r == Err(Disconnected) ==> |toClient| == |backend| || |toBackend| == |client|
  {
    var i, j := 0, 0;
    while i < |backend|
      invariant i <= |backend| && j <= |client| && j == Answers(backend[..i])
      invariant forall k :: 0 <= k < i ==> !Concludes(backend[k])
    {
      var packet := backend[i];
      assert backend[..i + 1][..i] == backend[..i];
      i := i + 1;
      if Concludes(packet) {
        r := if packet == [] then Err(Malformed) else if packet[0] == 0x00 then Ok(true) else Err(Rejected);
        return r, backend[..i], client[..j];
      }
      if IsAnswered(packet) {
        if j == |client| {
          return Err(Disconnected), backend[..i], client[..j];
        }
        j := j + 1;
      }
    }
    return Err(Disconnected), backend[..i], client[..j];
  }
}
