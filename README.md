# IMAP ENABLE capabilities, modelled in Dafny

This project models the typed vocabulary of the IMAP ENABLE command
(RFC 5161, section 3.1) from the `imap-types` crate: the capabilities a client
may name in `ENABLE`, the two UTF-8 capabilities of RFC 6855 (sections 3 and 6)
that have a reserved, canonical spelling, and the `ENABLE` command body.

- `Ascii` (ascii.dfy): `to_ascii_lowercase`, by which both conversions compare
  names, and the position-by-position "equal ignoring ASCII case" relation it induces.
- `Core` (core.dfy): `Atom`, a non-empty case-preserving token, and
  `NonEmptyVec`, a collection that holds at least one element (a head and a tail),
  with its fallible conversion from a sequence.
- `Enable` (enable.dfy): `Utf8Kind`, `CapabilityEnable`, `CapabilityEnableOther`
  (a subset type of `Atom` that excludes every casing of the two reserved names, so
  an `Other` capability can never hold one), the recogniser `FromAtom`
  (`From<Atom>`), the checked constructor `TryFromAtom` (`TryFrom<Atom>`), the
  encoders, the builder `BuildEnable` (`CommandBody::enable`) and the wire form of
  the command body.

Encoding returns the emitted text as a `seq<char>`. Atoms are ASCII, so each
character stands for one byte.

The recogniser and the checked constructor each compare the lower-cased atom
against the two names on their own, as the source does. The predicate
`IsReserved` is used only in contracts. The lemma `PathsAgree` proves that the
two comparisons draw the same line.

The encoder for the whole command is not part of this model. Its output,
`"ENABLE" 1*(SP capability)`, is taken from the grammar of RFC 5161 and from the
test table at imap-types/src/extensions/enable.rs:120-176.

## Model

| member | source | states |
|---|---|---|
| `Ascii.ToLower` | imap-types/src/extensions/enable.rs:58 | a lower-cased character is never an upper-case ASCII letter; 'A'..'Z' move up by 32 and every other character is kept |
| `Ascii.Lowercase` | imap-types/src/extensions/enable.rs:58 | the lower-case form has the same length, maps each character by `ToLower` and holds no upper-case ASCII letter |
| `Ascii.LowercaseEqualIff` | imap-types/src/extensions/enable.rs:58 | two texts have the same lower-case form if and only if they differ only in the case of ASCII letters |
| `Core.TryFromSeq` | imap-types/src/extensions/enable.rs:30-35 | converting to a `NonEmptyVec` fails with `Empty` exactly on the empty sequence; otherwise the vector holds the same elements in the same order |
| `Core.TryFromItems` | imap-types/src/extensions/enable.rs:32-35 | converting the elements of a non-empty vector gives that same vector back |
| `Enable.FromAtom` | imap-types/src/extensions/enable.rs:56-64 | total; yields a `Utf8` arm exactly when the atom is reserved, and otherwise `Other` holding the atom unchanged |
| `Enable.TryFromAtom` | imap-types/src/extensions/enable.rs:71-80 | fails with `Reserved` exactly when the atom is reserved; on success holds the original atom, casing unchanged |
| `Enable.WireLowercase` | imap-types/src/extensions/enable.rs:58-60 | the lower-case names compared against are the lower-case forms of the wire literals `UTF8=ACCEPT` and `UTF8=ONLY` |
| `Enable.FromAtomRecognisesAnyCasing` | imap-types/src/extensions/enable.rs:56-60 | the recogniser yields `Utf8(k)` if and only if the atom equals `k`'s wire name ignoring ASCII case |
| `Enable.TryFromRejectsAnyCasing` | imap-types/src/extensions/enable.rs:74-76 | the checked constructor fails if and only if the atom equals `UTF8=ACCEPT` or `UTF8=ONLY` ignoring ASCII case |
| `Enable.PathsAgree` | imap-types/src/extensions/enable.rs:56-80 | the recogniser yields `Other(x)` if and only if the checked constructor yields `Ok(x)`, and `Utf8` if and only if it fails with `Reserved` |
| `Enable.FromAtomIgnoresReservedCasing` | imap-types/src/extensions/enable.rs:58-60 | two casings of a reserved name are recognised as the same capability |
| `Enable.EncodeOther` | imap-types/src/extensions/enable.rs:107-111 | an `Other` capability is emitted as a non-empty text that is not a reserved name |
| `Enable.Encode` | imap-types/src/extensions/enable.rs:97-105 | the output is non-empty, and it is a reserved name exactly when the capability is in the `Utf8` arm |
| `Enable.FromAtomEncode` | imap-types/src/extensions/enable.rs:56-64 | recognising the encoding of any capability gives that capability back |
| `Enable.EncodeInjective` | imap-types/src/extensions/enable.rs:97-111 | two capabilities with the same encoding are equal |
| `Enable.EncodeFromAtom` | imap-types/src/extensions/enable.rs:97-102 | encoding a recognised atom gives the atom back up to ASCII case, and byte for byte when it is not reserved |
| `Enable.EncodeTryFrom` | imap-types/src/extensions/enable.rs:102-111 | an atom accepted by the checked constructor is emitted byte for byte |
| `Enable.OtherNeverEncodesReserved` | imap-types/src/extensions/enable.rs:100-102 | an `Other` capability never encodes to `UTF8=ACCEPT` or `UTF8=ONLY` |
| `Enable.BuildEnable` | imap-types/src/extensions/enable.rs:29-38 | fails with `Empty` exactly on an empty collection; otherwise the command body carries the capabilities in the given order |
| `Enable.BuildEnableItems` | imap-types/src/extensions/enable.rs:29-38 | building from the elements of a non-empty vector gives the command over that vector |
| `Enable.EncodeCapabilities` | imap-types/src/extensions/enable.rs:124-160 | every capability is preceded by one SP, so the text starts with SP and holds at least two characters per capability |
| `Enable.EncodeCommandBody` | imap-types/src/extensions/enable.rs:120-176 | the wire form of a command body starts with `ENABLE` and one SP |
| `Enable.EncodeCapabilitiesAppend` | imap-types/src/extensions/enable.rs:124-160 | encoding a concatenation of capability lists concatenates their encodings |
| `Enable.EncodeEnableSplit` | imap-types/src/extensions/enable.rs:29-38 | capabilities appear on the wire in the order supplied |
| `Enable.EncodeSingleEnable` | imap-types/src/extensions/enable.rs:124-160 | a command built from one capability `x` encodes as `ENABLE`, one SP and the encoding of `x` |
| `Enable.EnableTestVectors` | imap-types/src/extensions/enable.rs:120-176 | `ENABLE UTF8=ONLY`, `ENABLE UTF8=ACCEPT` and `ENABLE FOO` for the three one-element tables, and `Empty` for the empty one |
| `Enable.ConversionTestVectors` | imap-types/src/extensions/enable.rs:178-196 | `utf8=only` and `utf8=accept` are recognised as the `Utf8` kinds and refused by the checked constructor |

## Left out

- Writing into an `io::Write` sink and its `std::io::Result` errors: encoding is a pure function that returns the text, since a sink failure is I/O.
- Which characters are legal in an atom: `Atom` is any non-empty text, since atom validation is defined elsewhere.
- The encoder of the whole `CommandBody` is not part of this model; only its `ENABLE` output is modelled, from the RFC 5161 grammar and the source's test table.
- `NonEmptyVec` internals and the generic `TryInto` conversion: the builder takes a sequence of capabilities, which is how the source's callers and tests use it.
- The serde, `arbitrary` and `bounded-static` derives: they are library code. A serde `Deserialize` could bypass the reserved-name check, and the model's subset type does not allow that.
- The commented-out `Data::enable` placeholder and the response-side `Capability` and `Data::Enabled` variants, which are defined elsewhere.
- The `Debug`, `Clone`, `Hash` and ordering derives and the `thiserror` message text.
- The builder does not accept raw atoms. The source's `CommandBody::enable` takes only what converts into `NonEmptyVec<CapabilityEnable>`; a reading that lets raw tokens go through the recogniser inside the builder is not what the code does.
