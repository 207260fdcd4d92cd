# baxe error derive macro, modelled in Dafny

baxe's `#[error]` attribute macro turns an enum of API errors into a full error type. A developer annotates each variant with `#[baxe(status = ..., tag = "...", code = ..., message = "...")]`. From that one declaration the macro generates:

- the enum, redeclared without its attributes;
- a `Display` impl that writes each variant's message;
- the three `BackendError` accessors `to_status_code`, `to_error_tag` and `to_error_code`;
- a `From` conversion into the `BaxeError` envelope;
- an `IntoResponse` conversion that pairs the status with the JSON envelope.

This project models the macro as it runs. `syn`'s syntax tree becomes small datatypes (module `Syntax`). Types, expressions and literals are opaque. `quote!` output becomes token sequences.

Modules, by source construct:

- `Attributes` models `parse_baxe_attributes`.
  - `ParseBaxeAttributes` is the imperative loop over the attributes and their entries.
  - `Step`, `FoldEntries` and `FoldAttrs` are the same fold written as functions. The method is proved equal to them.
  - `Latest` and the lemmas after it say what the fold means: only `baxe` attributes are read, unknown keys are skipped, the last occurrence of a key wins, and `tag`/`message` change only on a string literal.
- `Unzip` models `UnzipN::unzip_n_vec`: a loop that pushes each component onto its own sequence.
- `Redeclare` models `variants_def`: each variant rendered as tokens, with a decoder that reads the redeclaration back.
- `Expansion` models the pure body of `error`:
  - the enum check;
  - one pattern per variant;
  - the `matches` rows, which call the extractor in declaration order;
  - the unzip;
  - the four arm lists.
- `Envelope` is the `BaxeError` record from `crates/core/src/types.rs`: its JSON form, which drops the status, and its response.
- `Runtime` gives the generated code a meaning:
  - a value of the generated enum is a variant name plus a payload;
  - each generated function is a `match self` that takes the first arm whose pattern matches;
  - `From` and `IntoResponse` are the fixed templates over those functions.

  Its lemmas show that a value of variant `i` reaches variant `i`'s arm in all four functions, whatever its payload. So its envelope and its response are built from variant `i`'s own attributes, and only from those.
- `Scenarios` states what the model yields for concrete declarations: a `400 / "bad_request" / 1001 / "Invalid input"` envelope, `tag = 5`, `tag = some_constant`, and a struct.

## Behaviour worth knowing


- **Non-string literal in `tag` or `message`.** It is not rejected: the code's `if let Lit::Str(lit) = value.parse()?` (crates/derive/src/lib.rs:139-141, 147-149) leaves the field as it was. When the key appears nowhere else, the field stays unset and is emitted as no tokens. The model does that; see `Scenarios.NonStringTagLeavesTagUnset`.
- **Non-literal value in `tag` or `message`.** A value such as `tag = SOME_CONST` is not a literal, so `value.parse::<Lit>()` fails and `.unwrap()` aborts the expansion. The model does that; see `Scenarios.NonLiteralTagAborts`.
- **Not an argument list.** A `baxe` attribute that is not a parenthesised list (`#[baxe]`, `#[baxe = ...]`) makes `parse_nested_meta` fail, which also aborts.

The abort is modelled as `Err(BadAttributes(name))`, naming the first variant whose attributes fail. That is the variant the lazy `map`/`collect` of lib.rs:39-55 reaches first. A struct or union is `Err(NotAnEnum)` (lib.rs:11-14).

Inputs the code never receives as parameters: none. The core does no I/O and reads no clock or randomness.

## Model

| member | source | states |
|---|---|---|
| `Attributes.AsExpr` | crates/derive/src/lib.rs:135-136 | a `status`/`code` value is accepted exactly when it is readable: every literal and every expression is an `Expr` |
| `Attributes.AsLit` | crates/derive/src/lib.rs:138-139 | a `tag`/`message` value parses as a literal exactly when it is a literal token |
| `Attributes.Step` | crates/derive/src/lib.rs:133-152 | one entry aborts exactly when it has a recognised key and a value that key cannot take; an entry with any other key leaves all four fields unchanged |
| `Attributes.RenderExpr` | crates/derive/src/lib.rs:157-162 | an unset `status`/`code` renders as the empty token sequence, and a set one as its expression |
| `Attributes.RenderStr` | crates/derive/src/lib.rs:157-162 | an unset `tag`/`message` renders as the empty token sequence, and a set one as one string-literal token |
| `Attributes.ParseBaxeAttributes` | crates/derive/src/lib.rs:125-163 | the imperative loop over attributes and entries, with four mutable `Option`s, returns exactly the result of the left-to-right fold, including the abort |
| `Attributes.FoldEntriesIsLatest` | crates/derive/src/lib.rs:133-153 | the entry fold aborts exactly when some entry is rejected; otherwise each field holds the last value any entry gave it, or its previous value |
| `Attributes.FoldEntriesAppend` | crates/derive/src/lib.rs:133-152 | folding over two entry lists equals folding over the first, then continuing from its result over the second |
| `Attributes.FoldAttrsIsFoldOfBaxeEntries` | crates/derive/src/lib.rs:131-155 | reading the attributes equals folding over the entries of all `baxe` attributes joined in order; a `baxe` attribute that is not a list aborts |
| `Attributes.ExtractIsLatest` | crates/derive/src/lib.rs:125-163 | extraction aborts exactly on a non-list `baxe` attribute or a rejected entry; otherwise each field is the last value given across all `baxe` attributes, or unset |
| `Attributes.BaxeEntriesAppend` | crates/derive/src/lib.rs:131-132 | the `baxe` entries of two attribute lists are the entries of each, in order |
| `Attributes.NonBaxeAttributeIgnored` | crates/derive/src/lib.rs:132 | inserting an attribute whose path is not exactly `baxe`, anywhere, leaves the result, abort included, unchanged |
| `Attributes.UnrecognizedEntryIgnored` | crates/derive/src/lib.rs:134-151 | inserting an entry whose key is not `status`/`tag`/`code`/`message`, anywhere, leaves the fold's result unchanged |
| `Attributes.LastExprNone` | crates/derive/src/lib.rs:134-136 | no expression is recorded for a key exactly when no entry with that key carries one |
| `Attributes.LastExprIsLast` | crates/derive/src/lib.rs:134-136 | the last entry with a key that carries an expression decides the recorded expression |
| `Attributes.LastStrNone` | crates/derive/src/lib.rs:137-141 | no string is recorded for a key exactly when no entry with that key carries a string literal |
| `Attributes.LastStrIsLast` | crates/derive/src/lib.rs:137-141 | the last entry with a key that carries a string literal decides the recorded string |
| `Attributes.LastExprEntryWins` | crates/derive/src/lib.rs:134-136 | when extraction succeeds, `status` and `code` hold the value of the last entry with that key, across several `baxe` attributes |
| `Attributes.LastStrEntryWins` | crates/derive/src/lib.rs:137-149 | when extraction succeeds, `tag` and `message` hold the last string literal given; a later non-string literal leaves it in place |
| `Attributes.AbsentKeyRendersEmpty` | crates/derive/src/lib.rs:126-162 | a recognised key that no `baxe` entry mentions stays unset and renders as no tokens |
| `Unzip.Unzip5` | crates/derive/src/lib.rs:172-188 | five sequences, each as long as the input; element `i` of sequence `k` is component `k` of tuple `i` |
| `Unzip.ZipUnzip` | crates/derive/src/lib.rs:172-188 | zipping the five sequences back together gives the input: nothing is lost or reordered |
| `Unzip.UnzipNVec` | crates/derive/src/lib.rs:172-188 | the push loop builds five sequences as long as the input, position by position its components, equal to `Unzip5` |
| `Redeclare.TypeListRoundTrip` | crates/derive/src/lib.rs:23-25 | the comma-separated field types of a positional variant read back as the same types in order |
| `Redeclare.FieldListRoundTrip` | crates/derive/src/lib.rs:27-33 | the comma-separated `name: type` fields of a named variant read back as the same pairs in order |
| `Redeclare.ParseVariantDefRoundTrip` | crates/derive/src/lib.rs:19-35 | a redeclared variant keeps its name and its shape: unit stays unit, positional keeps its types, named keeps its (name, type) pairs |
| `Expansion.PatternIgnoresPayloadTypes` | crates/derive/src/lib.rs:47-51 | two variants with one name get the same pattern exactly when their shapes are of the same kind; field types never enter it |
| `Expansion.Rows` | crates/derive/src/lib.rs:39-55 | the rows, one per variant in order, pair each variant's pattern with its own extracted fields; they fail exactly when some variant's attributes fail, naming the first such variant |
| `Expansion.ExpandOutcome` | crates/derive/src/lib.rs:11-14 | expansion aborts with a shape error exactly for a non-enum; an enum aborts exactly when some variant's attributes fail, naming the first |
| `Expansion.ExpandLayout` | crates/derive/src/lib.rs:16-93 | N variants give N redeclarations and N arms in each of the four functions, in order; redeclaration `i` decodes to variant `i`; arm `i` pairs pattern `i` with variant `i`'s own field |
| `Envelope.SerializationOmitsStatus` | crates/core/src/types.rs:7-14 | two envelopes serialise alike exactly when they differ at most in their status |
| `Runtime.EvalFirstMatch` | crates/derive/src/lib.rs:68-70 | a `match self` yields the body of the first arm whose pattern matches |
| `Runtime.OwnArmSelected` | crates/derive/src/lib.rs:77-93 | with one pattern per variant and unique names, a value of variant `i` takes arm `i` |
| `Runtime.AccessorsSelectOwnVariant` | crates/derive/src/lib.rs:66-93 | for a value of variant `i`, `fmt`, `to_status_code`, `to_error_tag` and `to_error_code` yield variant `i`'s message, status, tag and code |
| `Runtime.ResponseIsEnvelopeResponse` | crates/derive/src/lib.rs:108-112 | the generated response is the envelope's own response: the status paired with the envelope serialised without it |
| `Runtime.ConversionsOfOwnVariant` | crates/derive/src/lib.rs:96-112 | the envelope of a variant-`i` value holds `i`'s status, Display message, code and tag; its response pairs `i`'s status with that envelope's JSON |
| `Runtime.PayloadIrrelevant` | crates/derive/src/lib.rs:47-51 | two values of one variant with different payloads get the same message, envelope and response |
| `Runtime.NoCrossVariantLeakage` | crates/derive/src/lib.rs:39-112 | two declarations that agree on variant `i` give its values the same envelope and response, whatever the other variants carry |
| `Attributes.FoldEntries` | crates/derive/src/lib.rs:133-153 | computes the closure applied to one attribute's entries, left to right, stopping at the first error; its meaning is stated by `FoldEntriesIsLatest` and `FoldEntriesAppend` |
| `Attributes.FoldAttrs` | crates/derive/src/lib.rs:131-155 | computes the `for attr in &variant.attrs` loop: skips attributes not named `baxe`, aborts on a non-list `baxe` attribute, and otherwise folds its entries; stated by `FoldAttrsIsFoldOfBaxeEntries` |
| `Attributes.ParseAttrs` | crates/derive/src/lib.rs:125-163 | computes the extractor's result, the four fields rendered as `quote!(#field)`, or the abort; `ParseBaxeAttributes` is proved equal to it and `ExtractIsLatest` gives its closed form |
| `Redeclare.VariantDef` | crates/derive/src/lib.rs:19-35 | computes the tokens of one redeclared variant: `V`, `V(T1, T2)` or `V { a: T1, b: T2 }`; `ParseVariantDefRoundTrip` proves that name and shape are kept |
| `Expansion.PatternOf` | crates/derive/src/lib.rs:47-51 | computes `E::V`, `E::V(..)` or `E::V{..}` from the variant's name and shape kind alone; stated by `PatternIgnoresPayloadTypes` and used by `Runtime.OwnArmSelected` |
| `Expansion.Arms` | crates/derive/src/lib.rs:66-93 | computes `#(#patterns => #bodies,)*`: pattern `i` paired with body `i`; its layout per variant is stated by `ExpandLayout` |
| `Expansion.Expand` | crates/derive/src/lib.rs:6-116 | the `error` macro: a shape error exactly for a non-enum, and on success one arm per variant in each of the four functions; the detail is in `ExpandOutcome` and `ExpandLayout` |
| `Runtime.Eval` | crates/derive/src/lib.rs:68-92 | a `match self` over an arm list yields a body exactly when some arm's pattern matches; `EvalFirstMatch` proves that the body is that of the first matching arm |
| `Runtime.IntoBaxeError` | crates/derive/src/lib.rs:96-105 | computes the `From` envelope: `to_status_code`, `to_error_tag`, `to_error_code` and the Display output placed in its four fields; `ConversionsOfOwnVariant` gives it per variant |
| `Runtime.IntoResponse` | crates/derive/src/lib.rs:108-112 | computes the generated `into_response`: `to_status_code` paired with the serialised envelope; `ResponseIsEnvelopeResponse` and `ConversionsOfOwnVariant` state it |
| `Envelope.BaxeError.ToJson` | crates/core/src/types.rs:7-14 | computes the serialised envelope: `message`, `code` and `error_tag`, with `status_code` skipped; `SerializationOmitsStatus` states what it forgets |
| `Envelope.BaxeError.IntoResponse` | crates/core/src/types.rs:24-27 | computes `(self.status_code, Json(self))`: the envelope's status paired with its serialised form; `Runtime.ResponseIsEnvelopeResponse` proves the generated response equals it |
| `Attributes.Extract` | crates/derive/src/lib.rs:126-155 | computes the fold from four unset `Option` locals over all of a variant's attributes; `ExtractIsLatest` gives its closed form and `ParseBaxeAttributes` is proved to follow it |
| `Attributes.Render` | crates/derive/src/lib.rs:157-162 | computes `BaxeAttributes { status: quote!(#status), ... }`, each field rendered as `RenderExpr` or `RenderStr` states; `AbsentKeyRendersEmpty` gives the empty case |
| `Redeclare.TypeList` | crates/derive/src/lib.rs:24-25 | computes `#(#types),*`, the types separated by commas; `TypeListRoundTrip` proves they read back in order |
| `Redeclare.FieldList` | crates/derive/src/lib.rs:28-33 | computes `#(#field_defs),*`, each field as `name: type`, separated by commas; `FieldListRoundTrip` proves they read back in order |
| `Expansion.VariantsDef` | crates/derive/src/lib.rs:16-37 | computes the `variants_def` list: one `VariantDef` per variant, in order; `ExpandLayout` proves redeclaration `i` decodes to variant `i`'s name and shape |
| `Expansion.KindOf` | crates/derive/src/lib.rs:47-51 | computes the `match &variant.fields` of the pattern: unit, positional or named; `PatternIgnoresPayloadTypes` proves the pattern depends on nothing else |
| `Expansion.RowOf` | crates/derive/src/lib.rs:45-53 | computes the tuple `(pattern, status, tag, code, message)` for one variant; `Rows` states that row `i` is built from variant `i` and its own extracted fields |
| `Runtime.Fmt` | crates/derive/src/lib.rs:66-72 | computes `Display::fmt` as the `match self` over the message arms; `AccessorsSelectOwnVariant` gives its value per variant |
| `Runtime.ToStatusCode` | crates/derive/src/lib.rs:77-81 | computes `to_status_code` as the `match self` over the status arms; `AccessorsSelectOwnVariant` gives its value per variant |
| `Runtime.ToErrorTag` | crates/derive/src/lib.rs:83-87 | computes `to_error_tag` as the `match self` over the tag arms; `AccessorsSelectOwnVariant` gives its value per variant |
| `Runtime.ToErrorCode` | crates/derive/src/lib.rs:89-93 | computes `to_error_code` as the `match self` over the code arms; `AccessorsSelectOwnVariant` gives its value per variant |
| `Scenarios.BadRequestEnvelope` | crates/derive/src/lib.rs:96-112 | `status = StatusCode::BAD_REQUEST, tag = "bad_request", code = 1001, message = "Invalid input"` yields the envelope with those four values and a response carrying that status |
| `Scenarios.NonStringTagLeavesTagUnset` | crates/derive/src/lib.rs:139-141 | `tag = 5` does not abort: the tag stays unset and its `to_error_tag` arm has an empty body |
| `Scenarios.NonLiteralTagAborts` | crates/derive/src/lib.rs:137-139 | `tag = some_constant` aborts the whole expansion and names the variant |
| `Scenarios.StructAborts` | crates/derive/src/lib.rs:11-14 | a struct aborts with a shape error |

## Left out

- Token handling by `proc_macro`, `syn` and `quote!`. Types, expressions and literals are opaque values. A `MetaValue` is already classified as a literal, another expression, or unreadable.
- `syn`'s rule that each nested-meta entry must consume its `= value`. With that rule, an unrecognised key with a value is itself a parse error. The model treats unrecognised keys as skipped: the closure's if/else chain (lib.rs:134-150) has no branch for other keys and returns `Ok(())`. Trailing tokens after a value (`tag = "a" + b`) are left out for the same reason.
- Parse failure of the whole input item, from `parse_macro_input!` (lib.rs:7). It is part of token handling.
- The `write!` format semantics of the message. The Display output is taken to be the message template, verbatim. Payload fields named inside the template are not resolved.
- Whether the generated code compiles. This covers an unset field emitted as an empty arm, `StatusCode` validity and the `u16` range of `code`, which the host compiler decides. `Runtime.DistinctNames` assumes unique variant names, which the host compiler also enforces.
- The enum's generics, visibility and own attributes, each field's attributes and visibility, and variant discriminants (`V = 3`). `Syntax.Variant` has no place for them. The source drops them as well: `variants_def` (lib.rs:22-33) emits only each variant's name and field types, without field attributes, field visibility or discriminants; the output template (lib.rs:60-64) always writes `#[derive(Debug)] pub enum #enum_name`, without the enum's generics, visibility or attributes. The macro's own arguments (`_attr`) are ignored by the source.
- `#[derive(Debug)]`, `impl std::error::Error` and `BaxeError`'s `Display` (types.rs:16-20). They carry no logic.
- The `BackendError` trait (traits.rs:3-7). It appears only as the three accessor functions of `Runtime`.
- Determinism of the output. Every member is a function of its inputs, so re-running an expansion gives the same result by construction. No separate lemma states this.
