/**
 * authenticatorData (worker/src/webauthn.ts `parseAuthenticatorData`) against
 * the layout of section 6.1 of Web Authentication Level 3: what the parser
 * reads is what was laid out, with no byte left over.
 */
module AuthData {
  import opened Wrappers
  import opened Bytes
  import Cbor
  import opened CborWire

  const MAX_CREDENTIAL_ID: nat := 1023

  /** The codes a refusal carries. */
  datatype Code = AuthDataCode | KeyCode | CborCode

  datatype Attested = Attested(aaguid: seq<byte>, credentialId: seq<byte>, publicKey: seq<byte>, cose: seq<Cbor.Entry>)

  datatype AuthData = AuthData(rpIdHash: seq<byte>, flags: byte, counter: nat, attested: Option<Attested>)

  /** The AT flag, 0x40: attested credential data follows. */
  predicate HasCredential(flags: byte) {
    flags as int / 64 % 2 == 1
  }

  /** The ED flag, 0x80: extensions follow. */
  predicate HasExtensions(flags: byte) {
    flags as int / 128 == 1
  }

  /** The attested credential data at `i`, and where it ends. */
  function ReadAttested(b: seq<byte>, i: nat): (r: Result<(Attested, nat), Code>)
    requires i <= |b|
    ensures r.Ok? ==> i <= r.value.1 <= |b|
  {
    if |b| < i + 18 then Err(AuthDataCode)
    else
      var len, at := U16(b, i + 16), i + 18;
      if len < 1 || len > MAX_CREDENTIAL_ID || at + len > |b| then Err(AuthDataCode)
      else
        var item := Cbor.Decode(b, at + len, 0);
        if item.Err? || !item.value.value.Table? then Err(KeyCode)
        else Ok((Attested(b[i..i + 16], b[at..at + len], b[at + len..item.value.end], item.value.value.entries),
                 item.value.end))
  }

  /** Where the extensions at `i` end. */
  function ReadExtensions(b: seq<byte>, i: nat): (r: Result<nat, Code>)
    ensures r.Ok? ==> i <= r.value <= |b|
  {
    var item := Cbor.Decode(b, i, 0);
    if item.Err? then Err(CborCode) else if !item.value.value.Table? then Err(AuthDataCode) else Ok(item.value.end)
  }

  function Parse(b: seq<byte>): Result<AuthData, Code> {
    if |b| < 37 then Err(AuthDataCode)
    else
      var flags := b[32];
      var credential := if HasCredential(flags) then ReadAttested(b, 37) else Ok((Attested([], [], [], []), 37));
      if credential.Err? then Err(credential.error)
      else
        var extensions := if HasExtensions(flags) then ReadExtensions(b, credential.value.1)
                          else Ok(credential.value.1);
        if extensions.Err? then Err(extensions.error)
        else if extensions.value != |b| then Err(AuthDataCode)
        else Ok(AuthData(b[..32], flags, U32(b, 33), if HasCredential(flags) then Some(credential.value.0) else None))
  }

  /** The parser as it runs, a cursor over the bytes. */
  method ParseAuthenticatorData(b: seq<byte>) returns (r: Result<AuthData, Code>)
    ensures r == Parse(b)
  {
    if |b| < 37 { return Err(AuthDataCode); }
    var flags, counter, i: nat, attested := b[32], U32(b, 33), 37, None;
    if HasCredential(flags) {
      if |b| < i + 18 { return Err(AuthDataCode); }
      var aaguid := b[i..i + 16];
      i := i + 16;
      var len := U16(b, i);
      i := i + 2;
      if len < 1 || len > MAX_CREDENTIAL_ID || i + len > |b| { return Err(AuthDataCode); }
      var credentialId := b[i..i + len];
      i := i + len;
      var item := Cbor.DecodeCbor(b, i, 0);
      if item.Err? { return Err(KeyCode); }
      if !item.value.value.Table? { return Err(KeyCode); }
      attested := Some(Attested(aaguid, credentialId, b[i..item.value.end], item.value.value.entries));
      i := item.value.end;
    }
    if HasExtensions(flags) {
      var ext := Cbor.DecodeCbor(b, i, 0);
      if ext.Err? { return Err(CborCode); }
      if !ext.value.value.Table? { return Err(AuthDataCode); }
      i := ext.value.end;
    }
    if i != |b| { return Err(AuthDataCode); }
    r := Ok(AuthData(b[..32], flags, counter, attested));
  }

  // ---------- the layout ----------

  datatype Credential = Credential(aaguid: seq<byte>, id: seq<byte>, key: Wire)

  /** What an authenticator lays out; the key and the extensions are CBOR maps. */
  datatype Layout = Layout(hash: seq<byte>, flags: byte, counter: nat, credential: Option<Credential>,
                           extensions: Option<Wire>)

  predicate IsMap(x: Wire) {
    x.WTable? && Supported(x, 0)
  }

  predicate CredentialLaid(c: Credential) {
    |c.aaguid| == 16 && 1 <= |c.id| <= 1023 && IsMap(c.key)
  }

  /** The flags' seventh bit announces a credential, their eighth extensions; the counter has four bytes. */
  predicate WellLaid(l: Layout) {
    && |l.hash| == 32 && l.counter < 0x1_0000_0000
    && (l.flags as int % 128 >= 64) == l.credential.Some? && (l.flags as int >= 128) == l.extensions.Some?
    && (l.credential.Some? ==> CredentialLaid(l.credential.value))
    && (l.extensions.Some? ==> IsMap(l.extensions.value))
  }

  function LayFixed(l: Layout): seq<byte> {
    l.hash + [l.flags] + Spell(l.counter, 4)
  }

  function LayCredential(c: Credential): seq<byte> {
    (c.aaguid + Spell(|c.id|, 2) + c.id) + Write(c.key)
  }

  function Lay(l: Layout): seq<byte> {
    LayFixed(l) + ((if l.credential.Some? then LayCredential(l.credential.value) else [])
                     + (if l.extensions.Some? then Write(l.extensions.value) else []))
  }

  function AttestedOf(c: Credential): Attested
    requires c.key.WTable?
  {
    Attested(c.aaguid, c.id, Write(c.key), MeansEntries(c.key.entries))
  }

  /** What a parser is to make of the layout. */
  function DataOf(l: Layout): AuthData
    requires l.credential.Some? ==> l.credential.value.key.WTable?
  {
    AuthData(l.hash, l.flags, l.counter, if l.credential.Some? then Some(AttestedOf(l.credential.value)) else None)
  }

  // ---------- the pieces ----------

  lemma MapReads(b: seq<byte>, at: nat, x: Wire)
    requires IsMap(x) && Stands(b, at, Write(x))
    ensures Cbor.Decode(b, at, 0) == Ok(Cbor.Decoded(Cbor.Table(MeansEntries(x.entries)), at + |Write(x)|))
  {
    Complete(b, at, x, 0);
  }

  lemma MapWritten(b: seq<byte>, at: nat) returns (x: Wire)
    requires Cbor.Decode(b, at, 0).Ok? && Cbor.Decode(b, at, 0).value.value.Table?
    ensures IsMap(x) && Stands(b, at, Write(x)) && at + |Write(x)| == Cbor.Decode(b, at, 0).value.end
    ensures MeansEntries(x.entries) == Cbor.Decode(b, at, 0).value.value.entries
  {
    x := Sound(b, at, 0);
  }

  lemma Slices(b: seq<byte>, i: nat, len: nat, aaguid: seq<byte>, id: seq<byte>)
    requires |aaguid| == 16 && |id| == len < 65536
    ensures Stands(b, i, aaguid + Spell(len, 2) + id)
            <==> i + 18 + len <= |b| && b[i..i + 16] == aaguid && U16(b, i + 16) == len && b[i + 18..i + 18 + len] == id
  {
    StandsJoin(b, i, aaguid + Spell(len, 2), id);
    StandsJoin(b, i, aaguid, Spell(len, 2));
    if i + 18 <= |b| {
      Powers();
      U16Is(b, i + 16);
      NumberSpell(len, 2);
      SpellNumber(b[i + 16..i + 18]);
    }
  }

  lemma CredentialReads(b: seq<byte>, i: nat, c: Credential)
    requires CredentialLaid(c) && Stands(b, i, LayCredential(c))
    ensures i <= |b| && ReadAttested(b, i) == Ok((AttestedOf(c), i + |LayCredential(c)|))
  {
    hide Cbor.Decode, Write, U16, Spell;
    StandsJoin(b, i, c.aaguid + Spell(|c.id|, 2) + c.id, Write(c.key));
    Slices(b, i, |c.id|, c.aaguid, c.id);
    MapReads(b, i + 18 + |c.id|, c.key);
  }

  lemma CredentialWritten(b: seq<byte>, i: nat) returns (c: Credential)
    requires i <= |b| && ReadAttested(b, i).Ok?
    ensures CredentialLaid(c) && Stands(b, i, LayCredential(c))
            && ReadAttested(b, i).value == (AttestedOf(c), i + |LayCredential(c)|)
  {
    hide Cbor.Decode, Write, U16, Spell;
    var len := U16(b, i + 16);
    var key := MapWritten(b, i + 18 + len);
    c := Credential(b[i..i + 16], b[i + 18..i + 18 + len], key);
    Slices(b, i, len, c.aaguid, c.id);
    StandsJoin(b, i, c.aaguid + Spell(len, 2) + c.id, Write(key));
  }

  lemma FixedReads(b: seq<byte>, hash: seq<byte>, flags: byte, counter: nat)
    requires |hash| == 32 && counter < Cbor.TWO32
    ensures Stands(b, 0, hash + [flags] + Spell(counter, 4))
            <==> |b| >= 37 && b[..32] == hash && b[32] == flags && U32(b, 33) == counter
  {
    StandsJoin(b, 0, hash + [flags], Spell(counter, 4));
    StandsJoin(b, 0, hash, [flags]);
    if |b| >= 37 {
      assert b[32..33] == [b[32]];
      Powers();
      U32Is(b, 33);
      NumberSpell(counter, 4);
      SpellNumber(b[33..37]);
    }
  }

  // ---------- the whole ----------

  function CredentialPart(l: Layout): seq<byte> {
    if l.credential.Some? then LayCredential(l.credential.value) else []
  }

  function ExtensionsPart(l: Layout): seq<byte> {
    if l.extensions.Some? then Write(l.extensions.value) else []
  }

  lemma LaidParts(l: Layout)
    requires |l.hash| == 32 && l.counter < Cbor.TWO32
    ensures var b, c, e := Lay(l), CredentialPart(l), ExtensionsPart(l);
            && |b| == 37 + |c| + |e| && b[..32] == l.hash && b[32] == l.flags && U32(b, 33) == l.counter
            && Stands(b, 37, c) && Stands(b, 37 + |c|, e)
  {
    hide Write, U32, Spell, LayCredential;
    var b, c, e := Lay(l), CredentialPart(l), ExtensionsPart(l);
    assert Stands(b, 0, b) by { assert b[0..|b|] == b; }
    StandsJoin(b, 0, LayFixed(l), c + e);
    StandsJoin(b, 37, c, e);
    FixedReads(b, l.hash, l.flags, l.counter);
  }

  /** The two flags as the seventh and the eighth bit. */
  lemma FlagBits(flags: byte)
    ensures HasCredential(flags) <==> flags as int % 128 >= 64
    ensures HasExtensions(flags) <==> flags as int >= 128
  {
  }

  /** Every well-laid layout parses to what it says. */
  lemma LaidParses(l: Layout)
    requires WellLaid(l)
    ensures Parse(Lay(l)) == Ok(DataOf(l))
  {
    hide Cbor.Decode, Write, U32, Spell, ReadAttested, Supported, HasCredential, HasExtensions, Stands, LayCredential,
         Lay, LayFixed;
    LaidParts(l);
    FlagBits(l.flags);
    if l.credential.Some? { CredentialReads(Lay(l), 37, l.credential.value); }
    if l.extensions.Some? { MapReads(Lay(l), 37 + |CredentialPart(l)|, l.extensions.value); }
  }

  /** And whatever parses is some well-laid layout, byte for byte. */
  lemma ParsedLaid(b: seq<byte>) returns (l: Layout)
    requires Parse(b).Ok?
    ensures WellLaid(l) && Lay(l) == b && Parse(b).value == DataOf(l)
  {
    hide Cbor.Decode, Write, Spell, ReadAttested, Supported, HasCredential, HasExtensions;
    var flags := b[32];
    FlagBits(flags);
    var credential, extensions := None, None;
    var c: seq<byte>, e: seq<byte> := [], [];
    if HasCredential(flags) {
      var x := CredentialWritten(b, 37);
      credential, c := Some(x), LayCredential(x);
    }
    if HasExtensions(flags) {
      var x := MapWritten(b, 37 + |c|);
      extensions, e := Some(x), Write(x);
    }
    l := Layout(b[..32], flags, U32(b, 33), credential, extensions);
    LowPart(b, 33);
    FixedReads(b, l.hash, flags, l.counter);
    assert Stands(b, 37, c);
    assert Stands(b, 37 + |c|, e);
    StandsJoin(b, 37, c, e);
    StandsJoin(b, 0, LayFixed(l), c + e);
    assert b[0..|b|] == b;
  }

  /** The parser accepts exactly the layouts of the standard, and returns what they say. */
  lemma ParseExact(b: seq<byte>, d: AuthData)
    ensures Parse(b) == Ok(d) <==> exists l :: WellLaid(l) && Lay(l) == b && DataOf(l) == d
  {
    hide Parse, Lay;
    if Parse(b) == Ok(d) {
      var l := ParsedLaid(b);
    }
    forall l | WellLaid(l) && Lay(l) == b && DataOf(l) == d ensures Parse(b) == Ok(d) {
      LaidParses(l);
    }
  }

  // ---------- what a refusal says ----------

  /** A credential id of one to 1023 bytes is announced and stands whole; where the key after it begins. */
  predicate IdStands(b: seq<byte>) {
    |b| >= 55 && var len := b[53] as int * 256 + b[54] as int; 1 <= len <= 1023 && 55 + len <= |b|
  }

  /** A map of the subset stands at `at`. */
  predicate MapAt(b: seq<byte>, at: nat) {
    Cbor.Decode(b, at, 0).Ok? && Cbor.Decode(b, at, 0).value.value.Table?
  }

  /** Where what follows the credential begins, when there is one or none is announced. */
  function AfterCredential(b: seq<byte>): nat
    requires |b| >= 37
  {
    if b[32] as int % 128 < 64 then 37
    else if !IdStands(b) then 0
    else
      var at := 55 + b[53] as int * 256 + b[54] as int;
      if MapAt(b, at) then Cbor.Decode(b, at, 0).value.end else 0
  }

  /**
   * A refusal names the key when an announced credential's id stands and no map
   * follows it, the CBOR when the credential is whole and what is announced after
   * it is none, and the data itself otherwise.
   */
  lemma RefusedExactly(b: seq<byte>)
    ensures Parse(b) == Err(KeyCode) <==>
              && |b| >= 37 && b[32] as int % 128 >= 64 && IdStands(b)
              && !MapAt(b, 55 + b[53] as int * 256 + b[54] as int)
    ensures Parse(b) == Err(CborCode) <==>
              && |b| >= 37 && AfterCredential(b) > 0 && b[32] as int >= 128
              && Cbor.Decode(b, AfterCredential(b), 0).Err?
  {
    hide Cbor.Decode;
    if |b| >= 37 {
      FlagBits(b[32]);
    }
  }
}
