/**
 * The IMAP ENABLE extension (RFC 5161): the capabilities a client may name in
 * an ENABLE command, the two UTF-8 capabilities of RFC 6855 (sections 3 and 6)
 * that have a canonical spelling, and the command body that carries them.
 */
module Enable {

  import opened Wrappers
  import opened Ascii
  import opened Core

  /** The reserved names in the lower-case form they are compared in. */
  const AcceptLower := "utf8=accept"
  const OnlyLower := "utf8=only"

  /** The canonical wire spelling of the reserved names. */
  const AcceptWire := "UTF8=ACCEPT"
  const OnlyWire := "UTF8=ONLY"

  /** A name is reserved when its ASCII lower-case form is one of the two UTF-8 names. */
  predicate IsReserved(s: seq<char>) {
    Lowercase(s) == AcceptLower || Lowercase(s) == OnlyLower
  }

  datatype Utf8Kind = Accept | Only

  /** `CapabilityEnableOther`: an atom that is not, in any casing, a reserved name. */
  type CapabilityEnableOther = a: Atom | !IsReserved(a) witness "FOO"

  datatype CapabilityEnable = Utf8(kind: Utf8Kind) | Other(other: CapabilityEnableOther)

  datatype CapabilityEnableOtherError = Reserved

  /** `CommandBody::Enable`, the only variant of the command body this model needs. */
  datatype CommandBody = Enable(capabilities: NonEmptyVec<CapabilityEnable>)

  /** `From<Atom> for CapabilityEnable`: the total recogniser. */
  function FromAtom(atom: Atom): (r: CapabilityEnable)
    ensures r.Utf8? <==> IsReserved(atom)
    ensures r.Other? ==> r.other == atom
  {
    var lower := Lowercase(atom);
    if lower == AcceptLower then Utf8(Accept)
    else if lower == OnlyLower then Utf8(Only)
    else Other(atom)
  }

  /** `TryFrom<Atom> for CapabilityEnableOther`: the checked constructor. */
  function TryFromAtom(atom: Atom): (r: Result<CapabilityEnableOther, CapabilityEnableOtherError>)
    ensures r.Err? <==> IsReserved(atom)
    ensures r.Ok? ==> r.value == atom
  {
    var lower := Lowercase(atom);
    if lower == AcceptLower || lower == OnlyLower then Err(Reserved) else Ok(atom)
  }

  /** `Encode for CapabilityEnableOther`: the atom's characters as they are. */
  function EncodeOther(other: CapabilityEnableOther): (r: seq<char>)
    ensures |r| > 0 && !IsReserved(r)
  {
    other
  }

  /** The reserved names in lower case are the wire literals lower-cased. */
  lemma WireLowercase()
    ensures Lowercase(AcceptWire) == AcceptLower
    ensures Lowercase(OnlyWire) == OnlyLower
  {
    LowercaseIs(AcceptWire, AcceptLower);
    LowercaseIs(OnlyWire, OnlyLower);
  }

  /** `Encode for CapabilityEnable`. */
  function Encode(c: CapabilityEnable): (r: seq<char>)
    ensures |r| > 0
    ensures IsReserved(r) <==> c.Utf8?
  {
    WireLowercase();
    match c
    case Utf8(Accept) => AcceptWire
    case Utf8(Only) => OnlyWire
    case Other(other) => EncodeOther(other)
  }

  /** `CommandBody::enable`: wraps a collection of capabilities, failing when it is empty. */
  function BuildEnable(capabilities: seq<CapabilityEnable>): (r: Result<CommandBody, NonEmptyVecError>)
    ensures r.Err? <==> capabilities == []
    ensures r.Err? ==> r.error == Empty
    ensures r.Ok? ==> r.value.capabilities.Items() == capabilities
  {
    match TryFromSeq(capabilities)
    case Ok(v) => Ok(Enable(v))
    case Err(e) => Err(e)
  }

  /** Each capability in order, preceded by one SP: `1*(SP capability)`. */
  function EncodeCapabilities(capabilities: seq<CapabilityEnable>): (r: seq<char>)
    ensures |r| >= 2 * |capabilities|
    ensures capabilities != [] ==> r[0] == ' '
  {
    if capabilities == [] then []
    else [' '] + Encode(capabilities[0]) + EncodeCapabilities(capabilities[1..])
  }

  /** The wire form of an ENABLE command body: `"ENABLE" 1*(SP capability)`. */
  function EncodeCommandBody(body: CommandBody): (r: seq<char>)
    ensures |r| >= 8 && r[..7] == "ENABLE "
  {
    "ENABLE" + EncodeCapabilities(body.capabilities.Items())
  }

  // Recognition and checked construction

  /** The recogniser yields `Utf8(k)` for exactly the casings of `k`'s wire name. */
  lemma FromAtomRecognisesAnyCasing(atom: Atom, k: Utf8Kind)
    ensures FromAtom(atom) == Utf8(k) <==> EqIgnoreCase(atom, Encode(Utf8(k)))
  {
    WireLowercase();
    LowercaseEqualIff(atom, Encode(Utf8(k)));
  }

  /** The checked constructor refuses exactly the casings of the two wire names. */
  lemma TryFromRejectsAnyCasing(atom: Atom)
    ensures TryFromAtom(atom) == Err(Reserved) <==> EqIgnoreCase(atom, AcceptWire) || EqIgnoreCase(atom, OnlyWire)
  {
    WireLowercase();
    LowercaseEqualIff(atom, AcceptWire);
    LowercaseEqualIff(atom, OnlyWire);
  }

  /** The two construction paths draw the same line between reserved and other names. */
  lemma PathsAgree(atom: Atom, x: CapabilityEnableOther)
    ensures FromAtom(atom) == Other(x) <==> TryFromAtom(atom) == Ok(x)
    ensures FromAtom(atom).Utf8? <==> TryFromAtom(atom) == Err(Reserved)
  {
  }

  /** Two atoms that differ only in letter case are recognised alike when reserved. */
  lemma FromAtomIgnoresReservedCasing(a: Atom, b: Atom)
    requires EqIgnoreCase(a, b) && IsReserved(a)
    ensures FromAtom(a) == FromAtom(b)
  {
    LowercaseEqualIff(a, b);
  }

  // Encoding

  /** The recogniser undoes the encoder. */
  lemma FromAtomEncode(c: CapabilityEnable)
    ensures FromAtom(Encode(c)) == c
  {
    WireLowercase();
  }

  /** No two capabilities share a wire form. */
  lemma EncodeInjective(c: CapabilityEnable, d: CapabilityEnable)
    requires Encode(c) == Encode(d)
    ensures c == d
  {
    FromAtomEncode(c);
    FromAtomEncode(d);
  }

  /** Encoding a recognised atom gives it back up to letter case, and verbatim when it is not reserved. */
  lemma EncodeFromAtom(atom: Atom)
    ensures EqIgnoreCase(Encode(FromAtom(atom)), atom)
    ensures !IsReserved(atom) ==> Encode(FromAtom(atom)) == atom
  {
    WireLowercase();
    LowercaseEqualIff(Encode(FromAtom(atom)), atom);
  }

  /** A successfully checked atom is emitted byte for byte. */
  lemma EncodeTryFrom(atom: Atom)
    ensures TryFromAtom(atom).Ok? ==> Encode(Other(TryFromAtom(atom).value)) == atom
  {
  }

  /** An `Other` capability, however it was built, never encodes to a reserved literal. */
  lemma OtherNeverEncodesReserved(x: CapabilityEnableOther)
    ensures Encode(Other(x)) != AcceptWire && Encode(Other(x)) != OnlyWire
  {
    WireLowercase();
  }

  // The ENABLE command

  /** Encoding the capabilities of a concatenation concatenates their encodings, so order is kept. */
  lemma {:induction false} EncodeCapabilitiesAppend(a: seq<CapabilityEnable>, b: seq<CapabilityEnable>)
    ensures EncodeCapabilities(a + b) == EncodeCapabilities(a) + EncodeCapabilities(b)
  {
    if a == [] {
      assert a + b == b;
    } else {
      assert (a + b)[1..] == a[1..] + b;
      EncodeCapabilitiesAppend(a[1..], b);
    }
  }

  /** Building from the elements of a non-empty vector succeeds with exactly that vector. */
  lemma BuildEnableItems(v: NonEmptyVec<CapabilityEnable>)
    ensures BuildEnable(v.Items()) == Ok(Enable(v))
  {
    TryFromItems(v);
  }

  /** Capabilities appear on the wire in the order they were supplied. */
  lemma EncodeEnableSplit(a: seq<CapabilityEnable>, b: seq<CapabilityEnable>)
    requires a + b != []
    ensures EncodeCommandBody(BuildEnable(a + b).value) == "ENABLE" + EncodeCapabilities(a) + EncodeCapabilities(b)
  {
    EncodeCapabilitiesAppend(a, b);
  }

  /** A command built from one capability is `ENABLE`, SP and that capability's wire form. */
  lemma EncodeSingleEnable(x: CapabilityEnable)
    ensures BuildEnable([x]).Ok?
    ensures EncodeCommandBody(BuildEnable([x]).value) == "ENABLE " + Encode(x)
  {
    assert BuildEnable([x]).value.capabilities.Items() == [x];
    assert EncodeCapabilities([x]) == [' '] + Encode(x) + [];
  }

  /** The wire forms of the command bodies in the source's test table. */
  lemma EnableTestVectors()
    ensures BuildEnable([]) == Err(Empty)
    ensures EncodeCommandBody(BuildEnable([Utf8(Only)]).value) == "ENABLE UTF8=ONLY"
    ensures EncodeCommandBody(BuildEnable([Utf8(Accept)]).value) == "ENABLE UTF8=ACCEPT"
    ensures TryFromAtom("FOO") == Ok("FOO")
    ensures EncodeCommandBody(BuildEnable([Other(TryFromAtom("FOO").value)]).value) == "ENABLE FOO"
  {
    EncodeSingleEnable(Utf8(Only));
    EncodeSingleEnable(Utf8(Accept));
    EncodeSingleEnable(Other("FOO"));
  }

  /** The conversions in the source's test table. */
  lemma ConversionTestVectors()
    ensures FromAtom("utf8=only") == Utf8(Only)
    ensures FromAtom("utf8=accept") == Utf8(Accept)
    ensures TryFromAtom("utf8=only") == Err(Reserved)
    ensures TryFromAtom("utf8=accept") == Err(Reserved)
  {
    WireLowercase();
    FromAtomRecognisesAnyCasing("utf8=only", Only);
    FromAtomRecognisesAnyCasing("utf8=accept", Accept);
  }
}
