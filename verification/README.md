# NanoID in Dafny

A verified model of the `NanoID` value type of swift-nanoid: a short
identifier each of whose characters `firstIndex(of:)` finds in a fixed
64-character alphabet
(`useandom-26T198340PX75pxJACKVERYMINDBUSHWOLF_GQZbfghjklqvwyzrict`). Such a
character is either an alphabet character or U+212A KELVIN SIGN, which is
canonically `K`. Generated identifiers use alphabet characters only.
The type is created by random generation or by validating an existing
string. It renders losslessly as its raw string, and it is encoded and
decoded as a single string scalar.

Files:

- `wrappers.dfy`, module `Wrappers`: `Option` (the result of the failable
  initializer) and `Result` (a value or a thrown decoding error).
- `nanoid.dfy`, module `NanoID`: the alphabet and the identifier invariant.
  `NanoID` is a subset type of `Identifier(rawValue)`, so no value can break
  the invariant. The module also holds generation over caller-supplied
  draws, `firstIndex(of:)`, the validating scan, `description`/`size`, and
  the single-scalar encode/decode.
- `laws.dfy`, module `NanoIDLaws`: laws that relate the operations. They
  cover the round trips, equality, rejection and the failure diagnostic.
- `examples.dfy`, module `NanoIDExamples`: the concrete scenarios of the
  test suite, written as lemmas.

The random source is a parameter. `Generate(offsets, size)` takes the
offsets that `Int.random(in: 0..<alphabet.count)` would have drawn, one
per position, in draw order.

The alphabet constant is written as eight runs of eight characters.
Concatenated, the runs spell the Swift literal in order. Splitting it
lets facts about the alphabet be proved one run at a time.

Membership is decided with `firstIndex(of:)`, modelled as `FirstIndexOf`.
Swift compares `Character`s up to Unicode canonical equivalence, not by
code point. For this alphabet, only one equivalence matters: U+212A KELVIN
SIGN decomposes canonically to the letter `K`. It is the only character
outside the alphabet that is equivalent to a character inside it. So
`NanoID("\u{212A}")` succeeds and keeps the Kelvin sign in `rawValue`.
The model captures this with `Canon`, the decomposition that maps the
Kelvin sign to `K` and leaves every other character alone.
`SameCharacter` is `Character ==` restricted to that one equivalence.
`Equals` is the synthesised `==` on identifiers, which compares `rawValue`
as strings, so it also works up to canonical equivalence. Lemmas show that a character is accepted exactly
when it is URL-safe (an ASCII letter or digit, `-` or `_`) or is the
Kelvin sign. An accepted string's characters are each one Swift
`Character` made of a single code point, so modelling a `Character` as a
Dafny `char` is exact for every identifier.

## Model

| member | source | states |
|---|---|---|
| NanoID.AlphabetIsUrlSafe | Sources/NanoID/NanoID.swift:49-54 | the alphabet has 64 characters, and each one is an ASCII letter, an ASCII digit, `-` or `_` |
| NanoID.UrlSafeIsInAlphabet | Sources/NanoID/NanoID.swift:49-54 | every ASCII letter, ASCII digit, `-` and `_` occurs in the alphabet |
| NanoID.InAlphabetIffMember | Sources/NanoID/NanoID.swift:119 | `firstIndex(of:)` finds a character in the alphabet exactly when the alphabet holds its canonical decomposition. These are the alphabet characters themselves plus the Kelvin sign |
| NanoID.InAlphabetIffCanonicallyUrlSafe | Sources/NanoID/NanoID.swift:119 | `firstIndex(of:)` finds a character exactly when it is URL-safe or is the Kelvin sign (canonically `K`) |
| NanoID.Size | Sources/NanoID/NanoID.swift:59-62 | `size` is the character count of the identifier's textual form |
| NanoID.Generate | Sources/NanoID/NanoID.swift:26-44 | generating with `size` draws gives exactly `size` characters. Character `i` is the alphabet character at the `i`-th draw, in draw order. The result passes validation unchanged |
| NanoID.DrawsFor | Sources/NanoID/NanoID.swift:31-44 | for every identifier there is a sequence of in-range draws, one per character. Each draw picks the alphabet character that is canonically equal to the identifier's character at that position |
| NanoID.SameCharacter | Sources/NanoID/NanoID.swift:119 | `Character ==` as used by `firstIndex(of:)`: two characters are equal exactly when they are the same character or are the Kelvin sign and `K` |
| NanoID.FirstIndexOf | Sources/NanoID/NanoID.swift:119 | when `firstIndex(of:)` returns an index, that position holds a character canonically equal to `c` and no earlier position does. When it returns nil, no position holds one |
| NanoID.FirstRejected | Sources/NanoID/NanoID.swift:117-122 | the validating loop runs to the end exactly when `firstIndex(of:)` finds every character. Otherwise it stops at a character it does not find, and it finds every character before that one |
| NanoID.FromString | Sources/NanoID/NanoID.swift:114-124 | `init?(_:)` returns a value exactly when `firstIndex(of:)` finds every character in the alphabet. That value stores the string unchanged, with no normalisation. The empty string is accepted |
| NanoID.Description | Sources/NanoID/NanoID.swift:126-129 | converting `description` back with `init?(_:)` gives the same identifier |
| NanoID.ConversionFailure | Sources/NanoID/NanoID.swift:97-101 | the debug description is a 46-character preamble ending in a double quote, then the rejected string, then a closing double quote |
| NanoID.Decode | Sources/NanoID/NanoID.swift:89-106 | decoding a scalar succeeds exactly when `init?(_:)` accepts it, and then gives that identifier. Otherwise it throws a data-corrupted error with the description `Failed to convert an instance of NanoID from "<s>"` |
| NanoID.Encode | Sources/NanoID/NanoID.swift:74-83 | the encoding is one bare string of the identifier's size, and decoding it gives the identifier back |
| NanoID.Equals | Sources/NanoID/NanoID.swift:68-69 | the synthesised `==`: identifiers with identical raw values are equal, and equal identifiers have the same size |
| NanoIDLaws.RenderAfterParse | Sources/NanoID/NanoID.swift:117-129 | rendering an accepted string gives back that string |
| NanoIDLaws.EncodeAfterDecode | Sources/NanoID/NanoID.swift:91-106 | encoding a decoded identifier gives back the decoded scalar |
| NanoIDLaws.OneOutsiderRejects | Sources/NanoID/NanoID.swift:96-122 | one character anywhere in the input whose canonical decomposition is not in the alphabet makes `init?(_:)` return nil. It also makes decoding throw the data-corrupted error for that input |
| NanoIDLaws.AcceptsExactlyAlphabetStrings | Sources/NanoID/NanoID.swift:117-123 | `init?(_:)` returns a value exactly when the canonical decomposition of every character occurs in the alphabet. For strings without a Kelvin sign, that means exactly when every character occurs in the alphabet |
| NanoIDLaws.AcceptsExactlyCanonicallyUrlSafe | Sources/NanoID/NanoID.swift:117-123 | `init?(_:)` returns a value exactly when the string's canonical form is URL-safe. For strings without a Kelvin sign, that means exactly when the string itself is URL-safe |
| NanoIDLaws.NonUrlSafeRejects | Sources/NanoID/NanoID.swift:117-122 | one character anywhere in the string that is neither URL-safe nor the Kelvin sign makes `init?(_:)` return nil. Examples are a space, `!`, a newline or an emoji |
| NanoIDLaws.IdentifiersAreCanonicallyUrlSafe | Sources/NanoID/NanoID.swift:21-54 | every identifier is URL-safe up to canonical equivalence. An identifier without a Kelvin sign is URL-safe character for character |
| NanoIDLaws.SizeCountsCharacters | Sources/NanoID/NanoID.swift:59-62 | the `size` of an accepted string's identifier is the string's character count |
| NanoIDLaws.EqualsComparesCharacters | Sources/NanoID/NanoID.swift:68-69 | the synthesised `==` holds exactly when the raw values have the same length and are canonically equal character by character. Identical raw values are equal. Equal identifiers without a Kelvin sign have identical raw values |
| NanoIDLaws.EqualsIsEquivalence | Sources/NanoID/NanoID.swift:68-69 | the synthesised `==` is reflexive, symmetric and transitive |
| NanoIDLaws.DifferentSizesDiffer | Sources/NanoID/NanoID.swift:59-69 | under `==`, identifiers of different sizes are never equal |
| NanoIDLaws.RegenerationRecovers | Sources/NanoID/NanoID.swift:31-44 | the identifier spelled by the draws `DrawsFor(id)` is `==` to `id`. It is identical to `id` when `id` has no Kelvin sign |
| NanoIDLaws.FailureNamesInput | Sources/NanoID/NanoID.swift:96-102 | the failure description begins with "Failed to convert", names the type `NanoID` and contains the rejected string |
| NanoIDLaws.FailureIdentifiesInput | Sources/NanoID/NanoID.swift:96-102 | two different rejected strings never get the same failure description |
| NanoIDExamples.AbcIsAccepted | Tests/NanoIDTests/NanoIDTestSuite.swift:50-57 | "abc" is accepted unchanged, with size 3, description "abc" and encoding "abc". Two conversions of it are `==` |
| NanoIDExamples.BangsAreRejected | Tests/NanoIDTests/NanoIDTestSuite.swift:59-63 | "!!!" is rejected. Decoding it fails with a description that contains "Failed to convert" and "!!!" |
| NanoIDExamples.InvalidCharactersAreRejected | Tests/NanoIDTests/NanoIDTestSuite.swift:113-118 | "abc def", "abc🙂def" and "abc\ndef" are rejected |
| NanoIDExamples.AlphabetPrefixIsAccepted | Tests/NanoIDTests/NanoIDTestSuite.swift:120-127 | the first ten alphabet characters are accepted unchanged |
| NanoIDExamples.AlphabetSuffixRendersBack | Tests/NanoIDTests/NanoIDTestSuite.swift:129-136 | the last twelve alphabet characters are accepted and render back unchanged |
| NanoIDExamples.DefaultSizedDiffersFromAbc | Tests/NanoIDTests/NanoIDTestSuite.swift:65-74 | an identifier of the default size 21 is not `==` to the one built from "abc" |
| NanoIDExamples.KelvinSignIsAccepted | Sources/NanoID/NanoID.swift:117-124 | "\u{212A}" is accepted with its raw value unchanged and size 1, and it decodes. Its identifier is `==` to the one built from "K", although the raw values differ |

## Left out

- Random source (`Int.random(in:)`): replaced by caller-supplied offsets. Uniformity, independence of draws and the 10,000-identifier collision scenario are probabilistic claims, so they are not stated.
- Distinctness of the 64 alphabet characters is not proved. Its only use is to show that different draw sequences give different identifiers.
- Negative `size`: the Swift loop traps at run time when it forms `0..<size`. `Generate` requires exactly `size` draws, and that excludes negative sizes.
- `Encoder`/`Decoder` containers and JSON bytes (Foundation): only the string ⇄ identifier step inside the single-value container is modelled. A failure to read a string scalar at all comes from that machinery and is not modelled either.
- `Sendable` conformance: about concurrency only.
- Grapheme clusters: a Swift `Character` is modelled as one Dafny `char`. Every character of an identifier is a single code point that forms a `Character` of its own, so acceptance, `size` and `==` are exact for identifiers. A `Character` made of several code points is never canonically equal to a single alphabet character, so Swift rejects it. Such a `Character` always holds a code point the model rejects, such as a combining mark, a joiner or the `\r` of `\r\n`. Acceptance therefore agrees for every string.
- SameCharacter: Swift's canonical equivalence is narrowed here. `Canon` models only the decomposition of U+212A KELVIN SIGN to `K`. Other equivalences, such as U+2126 OHM SIGN, U+212B ANGSTROM SIGN and combining sequences, only relate characters outside the alphabet to each other. They therefore never change whether `firstIndex(of:)` finds a character in the alphabet.
- `Hashable`: the synthesised hash is consistent with `==` by Swift's contract; hashing is not modelled.
- Package.swift: build metadata only.
