# Azure instance-metadata tags, in Dafny

The client in `imds.go` fetches the Azure Instance Metadata Service document,
decodes it into `Metadata`, and then derives `Metadata.ParsedTags` from the raw
`Compute.Tags` string (shaped `k1:v1;k2:v2`) with `parseTags`. This project
models that derivation. It has three modules:

- `Wrappers` (`wrappers.dfy`): `Option` and `Result`.
- `GoStrings` (`go_strings.dfy`): Go's `strings.Split` and `strings.Join` for a
  one-character separator, as the functions `Split` and `Join`, with lemmas
  saying that they are inverse to each other, how many tokens `Split` returns,
  and what the first token and the remaining tokens are.
- `Imds` (`imds.dfy`): `parseTags` as the method `ParseTags`, with the `map`
  it updates in its loop. The method is proved equal to the fold `FoldTags`
  over the `;`-tokens; `TagMap(input)` is that fold applied to
  `Split(input, ';')`. One token goes through `ParseTag`, `Key` and `Value`,
  which express `tuple[0]` and `tuple[1]` of its `:`-split. The decoded
  records (`Compute`, `Network` and the rest) are datatypes. `Metadata` is a
  class whose `parsedTags` field `New` overwrites.

In Go, a token without `:` makes `tuple[1]` index out of range, and the
program panics. The model turns that panic into the result
`Failure(IndexOutOfRange(i))`, where `i` is the position of the first such
token. One might expect the empty tag string to give an empty map. The code
does otherwise: `strings.Split("", ";")` yields one empty token, so
`parseTags("")` panics (`EmptyInputPanics`).

`json.Unmarshal` is not modelled. What it leaves in the record (`Compute`,
`Network`, and a decoded `parsedTags`, because the field has a JSON tag) and
the error it returns are inputs to `New`.

## Model

| member | source | states |
|---|---|---|
| GoStrings.Split | imds.go:46 | `strings.Split` always returns at least one token |
| GoStrings.JoinSplit | imds.go:46 | joining the `;`-tokens with `;` gives back the input exactly |
| GoStrings.SplitCount | imds.go:46 | there is one more token than there are separator characters, so `""` yields one token |
| GoStrings.SplitSeparatorFree | imds.go:46 | no token contains the separator |
| GoStrings.SplitJoin | imds.go:46 | splitting a join of separator-free tokens gives back those tokens (Split is the inverse of Join) |
| GoStrings.SplitOfFree | imds.go:48 | a string without the separator splits into itself alone |
| GoStrings.SplitCons | imds.go:48 | splitting `t + sep + u`, with `t` separator-free, gives `t` followed by the tokens of `u` |
| GoStrings.SplitFirst | imds.go:48-49 | the first token (`tuple[0]`) is the longest separator-free prefix, followed by the end of the input or by a separator |
| GoStrings.SplitRest | imds.go:48-49 | if the input has a separator, there are at least two tokens, and the tokens after the first are the tokens of the text after the first separator |
| Imds.ParseTag | imds.go:48-49 | one loop iteration: a token yields the pair `tuple[0] -> tuple[1]` exactly when it contains `:`; without one, `tuple[1]` is out of range |
| Imds.Key | imds.go:48-49 | `tuple[0]` is the text before the first `:`, or the whole token when it has no `:` |
| Imds.Value | imds.go:48-49 | `tuple[1]` is the text between the first `:` and the next `:` or the end; anything after a second `:` is dropped |
| Imds.FoldTags | imds.go:45-50 | the loop run over the tokens from the empty map, one entry written per token; a panic names a token that has no `:` |
| Imds.TagMap | imds.go:44-52 | `parseTags(input)` gives a map exactly when every `;`-token has a `:`, with one key per distinct token key; otherwise it panics at a token without `:`, and every earlier token has one |
| Imds.ParseTags | imds.go:44-52 | the loop's result equals the fold over the `;`-tokens; it succeeds exactly when every token has a `:`; on success its key set is the set of token keys |
| Imds.FailurePersists | imds.go:47-49 | once the loop panics on a prefix of the tokens, the whole parse panics the same way |
| Imds.FoldSuccessIff | imds.go:47-49 | the parse succeeds if and only if every token has a `:`; otherwise it panics at the first token without one, and every earlier token has a `:` |
| Imds.FoldKeys | imds.go:45-51 | the result's key set is exactly the set of token keys: nothing else is added |
| Imds.FoldLastWins | imds.go:47-49 | for the rightmost token with a given key, the result maps that key to that token's value (last write wins) |
| Imds.FoldEntryOrigin | imds.go:47-49 | every entry of the result comes from the rightmost token that carries its key |
| Imds.FoldSize | imds.go:45-51 | the result never has more entries than there are tokens |
| Imds.Tokens | imds.go:46 | the `;`-tokens rejoin to the input, contain no `;`, and number one more than the `;` characters |
| Imds.TagMapSize | imds.go:45-51 | a successful parse has at most one more entry than the input has `;` characters |
| Imds.EmptyInputPanics | imds.go:46-49 | `parseTags("")` panics at token 0 |
| Imds.TrailingSemicolonPanics | imds.go:46-49 | a well-formed tag followed by a trailing `;` panics at the empty token 1 |
| Imds.BareTokenPanics | imds.go:47-49 | `"a:1;bad"` panics at token 1 |
| Imds.TwoTags | imds.go:44-52 | `"a:1;b:2"` gives `{a: 1, b: 2}` |
| Imds.RepeatedKeyKeepsLast | imds.go:47-49 | `"a:1;a:2"` gives `{a: 2}` |
| Imds.SecondColonDropped | imds.go:48-49 | `"k:a:b"` gives `{k: a}` |
| Imds.EmptyKeyAllowed | imds.go:49 | `":v"` gives `{"": v}` |
| Imds.ZeroCompute | imds.go:60-84 | the zero-valued Compute has an empty Tags string |
| Imds.Metadata.constructor | imds.go:38-39 | the record holds exactly what the decoder put in each field |
| Imds.Metadata.DeriveParsedTags | imds.go:40 | ParsedTags is overwritten with the parse of Compute.Tags, whatever it held before; if the parse panics, the field keeps its old value and the panic is reported |
| Imds.New | imds.go:38-41 | New panics exactly when Compute.Tags does not parse; otherwise it returns a fresh record with the decoded Compute and Network, ParsedTags equal to the parse of Compute.Tags, and the decoder's error unchanged, even when that error is present |
| Imds.NewOnZeroCompute | imds.go:38-41 | a decode that leaves Compute at its zero value makes New panic in parseTags at token 0, whatever else was decoded and whatever error the decoder returned |

## Left out

- The HTTP request (URL, `Metadata: True` header, `format` and `api-version` query parameters), `client.Do` and `ioutil.ReadAll`: these are network I/O with no logic to verify. Their errors make `New` return early, before the modelled part runs.
- `json.Unmarshal`: a library call. Its output record and its error are inputs to `New`.
- `defer resp.Body.Close()`: resource handling only.
- Go strings are byte strings. The model uses `seq<char>`. With the one-byte ASCII separators `;` and `:`, splitting on bytes and splitting on characters give the same tokens.
- Imds.ParseTags: when the loop panics, the entries it has already written are not modelled. The map is local and is lost with the panic.
- The record types other than `Compute.Tags` and `Metadata.ParsedTags` are plain datatypes with no properties.
