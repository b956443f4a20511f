# Backwards-compatibility conversion of the image-spec schema tests

This model covers the small adapter in `schema/manifest_backwards_compatibility_test.go` of the OCI image specification. The adapter lets Docker v2.2 documents be checked against the OCI schema.

- `compatMap` is a table of four entries. Each pairs a Docker media type (the key) with its OCI counterpart (the value).
- `convertFormats` rewrites a document by calling `strings.Replace(out, v, k, -1)` once per entry. The entries are taken in whatever order Go's `range` visits the map.
- Two tests feed a Docker manifest list and a Docker image manifest through `convertFormats`, then hand the result to the OCI schema validator.

The project has four modules, one per file:

- `Strings` (`strings.dfy`) models Go's `strings.Replace` with `n = -1` as `ReplaceAll`, a left-to-right scan. An independent reference cuts the text at the leftmost occurrences (`IndexOf`, `Split`) and glues the pieces back with the replacement (`Join`). The two are proved equal.
- `Rewriting` (`rewriting.dfy`) covers a table of rules, each one `strings.Replace`:
  - `Sequential`, and the loop `ApplyAll` that computes it, apply the rules one after another in a given order.
  - `OnePass` is the reference: one scan that rewrites every pattern at once. It depends only on the set of rules.
  - `NonOverlapping` says the rules cannot create or hide each other's occurrences. Under it, every order of the loop gives `OnePass`, no pattern survives, text without patterns is left alone, and a second run changes nothing.
- `BackwardsCompat` (`compat.dfy`) holds the table and `ConvertFormats`, which follows the code: each OCI value becomes its Docker key. `order` stands for the map's visit order and may be any permutation of the table. The model proves that the four rules cannot interfere, so the result is the same for every order.
  - From the shape of media types: `application/` followed by a subtype without `/`.
  - From the letter after `application/vnd.`: `d` in Docker types, `o` in OCI types.
  - `ConvertFormatsIntended` is the reverse direction, the one the doc comment describes (see Findings).
- `TestManifests` (`manifests.dfy`) writes the two test documents as lists of JSON lines. It proves that no OCI media type occurs in them, so `convertFormats` returns them unchanged.

## Model

| member | source | states |
|---|---|---|
| BackwardsCompat.CompatTable | schema/manifest_backwards_compatibility_test.go:27-32 | the four pairs of `compatMap`, each Docker media type (the key) with its OCI media type (the value), spelled as in the Go literals; the order of the entries carries no meaning, since every use quantifies over its permutations |
| BackwardsCompat.AsWritten | schema/manifest_backwards_compatibility_test.go:40 | the step for the entry `k: v` is `strings.Replace(out, v, k, -1)`: the OCI value is the text searched for and the Docker key is its replacement |
| BackwardsCompat.CompatTableInjective | schema/manifest_backwards_compatibility_test.go:27-32 | the table has four entries with pairwise distinct keys and pairwise distinct values |
| BackwardsCompat.CompatRulesNonOverlapping | schema/manifest_backwards_compatibility_test.go:27-32 | the four OCI-to-Docker rules are non-overlapping: no OCI type starts inside another, inside a Docker type or across the start of one |
| BackwardsCompat.ConvertFormats | schema/manifest_backwards_compatibility_test.go:37-43 | for every visit order that is a permutation of the map, the output equals the one-pass rewrite of the input; no OCI media type of the table is left; input without any comes back unchanged |
| BackwardsCompat.ConvertOrderFree | schema/manifest_backwards_compatibility_test.go:39-41 | the loop over any permutation of the map computes the same text, the one-pass rewrite |
| BackwardsCompat.PermutedSteps | schema/manifest_backwards_compatibility_test.go:39 | a permutation of the map yields exactly the same set of replacement steps |
| BackwardsCompat.CompatRemovesAll | schema/manifest_backwards_compatibility_test.go:39-41 | after the conversion no OCI media type of the table occurs anywhere in the text |
| BackwardsCompat.CompatIdentity | schema/manifest_backwards_compatibility_test.go:37-43 | a text containing no OCI media type of the table is returned unchanged |
| BackwardsCompat.CompatIdempotent | schema/manifest_backwards_compatibility_test.go:37-43 | converting the output a second time gives the same text |
| BackwardsCompat.ConvertFormatsIntended | schema/manifest_backwards_compatibility_test.go:34-36 | the conversion the doc comment describes: for every visit order the output is the one-pass Docker-to-OCI rewrite; no Docker media type of the table is left; input without any comes back unchanged |
| BackwardsCompat.IntendedRulesNonOverlapping | schema/manifest_backwards_compatibility_test.go:27-32 | the four Docker-to-OCI rules are non-overlapping as well |
| BackwardsCompat.IntendedRemovesAll | schema/manifest_backwards_compatibility_test.go:34-36 | after the intended conversion no Docker media type of the table occurs in the text |
| BackwardsCompat.IntendedIdentity | schema/manifest_backwards_compatibility_test.go:34-36 | a text with no Docker media type of the table is left unchanged by the intended conversion |
| Rewriting.Sequential | schema/manifest_backwards_compatibility_test.go:38-41 | the `range` loop as a left fold: `out` starts as the input and each visited rule replaces it with `strings.Replace(out, pat, rep, -1)` |
| Rewriting.ApplyAll | schema/manifest_backwards_compatibility_test.go:38-42 | the loop body is one `strings.Replace` per rule in order, and the loop returns the left fold of those replacements |
| Rewriting.SequentialIsOnePass | schema/manifest_backwards_compatibility_test.go:39-41 | for non-overlapping rules, applying them one after another in the given order equals the one-pass rewrite |
| Rewriting.ReplaceThenOnePass | schema/manifest_backwards_compatibility_test.go:40 | one `strings.Replace` followed by a one-pass rewrite with the remaining rules equals a one-pass rewrite with all of them |
| Rewriting.OnePassOrderFree | schema/manifest_backwards_compatibility_test.go:39 | for rules whose patterns are apart, the one-pass rewrite depends only on the set of rules, not their order |
| Rewriting.SequentialOrderFree | schema/manifest_backwards_compatibility_test.go:39-41 | for non-overlapping rules, any reordering of the loop gives the one-pass rewrite |
| Rewriting.OnePassRemovesAll | schema/manifest_backwards_compatibility_test.go:40 | no pattern of a non-overlapping table occurs in the rewritten text |
| Rewriting.OnePassIdentity | schema/manifest_backwards_compatibility_test.go:40 | text containing no pattern is returned unchanged |
| Rewriting.OnePassIdempotent | schema/manifest_backwards_compatibility_test.go:37-43 | rewriting twice equals rewriting once |
| Rewriting.ReplaceAllRemoves | schema/manifest_backwards_compatibility_test.go:40 | after one `strings.Replace` no occurrence of its pattern is left, when pattern and replacement cannot overlap |
| Strings.ReplaceAll | schema/manifest_backwards_compatibility_test.go:40 | `strings.Replace(s, pat, rep, -1)` for a non-empty pattern; text in which the pattern does not occur is returned unchanged |
| Strings.ReplaceAllIsSplitJoin | schema/manifest_backwards_compatibility_test.go:40 | the scan equals cutting the text at the leftmost non-overlapping occurrences and joining the pieces with the replacement |
| Strings.SplitJoin | schema/manifest_backwards_compatibility_test.go:40 | cutting at the occurrences and joining with the pattern gives the text back |
| Strings.SplitLeftmost | schema/manifest_backwards_compatibility_test.go:40 | the cuts are the leftmost ones: no piece contains the pattern, and no occurrence starts inside any piece but the last, even with the next occurrence put back |
| Strings.IndexOfNone | schema/manifest_backwards_compatibility_test.go:40 | the search for the next occurrence finds nothing exactly when the pattern does not occur |
| Strings.IndexOfFound | schema/manifest_backwards_compatibility_test.go:40 | the position found is an occurrence |
| Strings.IndexOfLeftmost | schema/manifest_backwards_compatibility_test.go:40 | no occurrence starts before the position found |
| Strings.ContainsIff | schema/manifest_backwards_compatibility_test.go:40 | the pattern occurs exactly when it starts at some position of the text |
| TestManifests.ManifestListText | schema/manifest_backwards_compatibility_test.go:53-108 | the manifest list of the first test, built from its lines; it is meant to be the Go raw string character for character, which Dafny does not check |
| TestManifests.ManifestText | schema/manifest_backwards_compatibility_test.go:141-171 | the image manifest of the second test, built from its lines; it is meant to be the Go raw string character for character, which Dafny does not check |
| TestManifests.ManifestListUnchanged | schema/manifest_backwards_compatibility_test.go:53-108 | `convertFormats` returns the manifest list of the first test unchanged |
| TestManifests.ManifestUnchanged | schema/manifest_backwards_compatibility_test.go:141-171 | `convertFormats` returns the image manifest of the second test unchanged |
| TestManifests.DocumentUnchanged | schema/manifest_backwards_compatibility_test.go:53-108 | any document made of short lines, `mediaType` lines holding one of the documents' five media types, and hexadecimal `digest` lines, holds no OCI media type, so it is returned unchanged |
| TestManifests.ManifestListStaysDocker | schema/manifest_backwards_compatibility_test.go:118-120 | the text handed to the OCI validator is the original manifest list and still declares the Docker manifest-list media type |
| TestManifests.ManifestStaysDocker | schema/manifest_backwards_compatibility_test.go:181-183 | the text handed to the OCI validator is the original image manifest and still declares the Docker manifest media type |
| TestManifests.ManifestListConverted | schema/manifest_backwards_compatibility_test.go:118 | the intended conversion leaves no Docker media type of the table in the manifest list, so it does change the text |
| TestManifests.ManifestConverted | schema/manifest_backwards_compatibility_test.go:181 | the intended conversion leaves no Docker media type of the table in the image manifest, so it does change the text |

## Left out

- The SHA-256 digest checks at lines 112-116 and 175-179 are not modelled: hashing and hex encoding are out of scope. The digests in the documents are kept as numbers and written out as 64 hexadecimal digits.
- The schema validator called at lines 120 and 183 is not part of this model, and neither is the `fail` expectation it is compared with. `strings.NewReader` and the `testing.T` reporting are left out as I/O.
- Go randomises the order in which `range` visits a map. That mechanism is not modelled: the order is the parameter `order`, which may be any permutation of the table.
- Strings.ReplaceAll: requires a non-empty pattern. Go's special case for an empty `old` (insert at every rune boundary) and a replacement count other than -1 are left out, because the adapter only ever passes non-empty media types with -1.
- Go strings are byte sequences, while the model uses `seq<char>`. All media types are ASCII, and under UTF-8 an ASCII pattern never matches inside a multi-byte sequence. So the matches and the output are the same either way, although byte offsets and character indices differ once non-ASCII text precedes a match.
- Each test document is written as a list of `Line` values. `Document` prints these line by line, and is meant to spell the Go raw string character for character. Dafny does not compare the two; the two documents' lines are listed at lines 53-108 and 141-171.

## Findings

`convertFormats` runs in the opposite direction to its doc comment. The comment at lines 34-36 says it converts Docker v2.2 documents to OCI format, but line 40 turns OCI media types into Docker ones. The test names (`TestBackwardsCompatibility...`) and the Docker documents they pass in point the same way as the comment. As written, the conversion is the identity on both test documents, so the schema validator at lines 120 and 183 is handed the Docker media types unchanged. That validator is not part of this model, so whether the tests pass in either direction cannot be told from it.

The main model, `ConvertFormats`, keeps the code's direction. `ConvertFormatsIntended` models the corrected direction beside it, with the same guarantees proved. `ManifestListConverted` and `ManifestConverted` use it on the two documents.

| source | as written | input that shows it | evidently intended | confidence | as-written member | corrected member |
|---|---|---|---|---|---|---|
| schema/manifest_backwards_compatibility_test.go:40 | `strings.Replace(out, v, k, -1)` replaces each OCI value by its Docker key | the manifest list at lines 53-108: `convertFormats` returns it unchanged, still declaring `application/vnd.docker.distribution.manifest.list.v2+json`, instead of converting it to OCI format as the doc comment promises | `strings.Replace(out, k, v, -1)`, so that Docker media types become OCI ones, as the doc comment at lines 34-36 says; the test names hint the same | medium; not executed | TestManifests.ManifestListStaysDocker | BackwardsCompat.ConvertFormatsIntended |
