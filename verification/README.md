# cstree2d, modelled in Dafny

`cstree2d` puts indentation into `cstree` syntax trees. A caller builds a
green tree whose leaves include three structural markers (Indent, Dedent and
Newline) next to its own tokens. `extract_text` walks the tree in document
order and rebuilds the text. While it walks, it keeps a stack of indentation
strings and a "pending indentation" flag. The repository holds this logic
twice: once in the top-level crate (`src/lib.rs`) and once in the `cstree2d`
crate (`cstree2d/src/syntax.rs`, `cstree2d/src/green.rs`). This project models
both copies.

Modules, in dependency order:

- `Syntax`: the kind type `Syntax2D<S>` and its 32-bit raw encoding. The three
  markers take `u32::MAX - 2`, `u32::MAX - 1` and `u32::MAX`. The caller's
  kind type `S` is a parameter: `InnerSyntax<S>` holds its decoder (a
  partial function, because `from_raw` may panic), its encoder and its static
  texts. The two copies of this code are identical, so it is modelled once.
- `Cstree`: the part of the `cstree` library the core relies on, reduced to
  values.
  - A green tree has raw kinds on its nodes and leaves. Each leaf holds its
    resolved text, or `None` for a static token.
  - The builder calls are recorded as an event stream.
  - `GreenNodeBuilder::finish` becomes `Build`, a well-nested reading of that
    stream.
- `Indentation`: how one token changes the walk state (`Advance`) and how a
  token sequence does (`Replay`). Both copies change the state the same way.
  This module also proves the stack invariants: the stack depth count, the
  frame property, and the fact that a balanced block restores the stack.
- `OpenIndents`: which Indents are still open after a token sequence, defined
  from the tokens alone. An Indent is open when no run of tokens starting right
  after it holds more Dedents than Indents. From an empty start, the walk's
  stack is exactly the texts of the open Indents, in order.
- `Lib`: the `src/lib.rs` copy.
  - `Emit` and `Output` specify the text appended per token and per token
    sequence.
  - `Lib.Walker` is the imperative walk: a class whose stack, flag and output
    are updated in place. Its methods are proved against `Output` and `Replay`.
  - `Lib.Builder` records the builder's event log.
- `Green`: the `cstree2d/src/green.rs` copy.
  - `Writes` and `AllWrites` specify the sequence of `write_str` arguments.
  - `Green.Formatter` is a sink with a write budget. `None` means the sink
    never fails; `Some(n)` means it fails at write `n + 1`. `Run` says what
    the sink holds after a sequence of writes that stops at the first failure.
  - `Green.Walker` returns the first failure at once, as each `?` does.
  - `Green.Builder` adds Dedent and Newline as static tokens that store no
    text, and has `dedents(n)`.
  - `AgreesWithLib` relates this copy to `Lib`. The two copies produce the same
    text unless a Newline is met while indentation is pending. In that case
    this copy writes the whole stack before the "\n", so a blank line inside a
    block carries trailing indentation. `BlankLineText` gives an example.
- `Scenarios`, `Joins`, `Builds`: the unit tests' kind type (`TestSyntax`), the
  documents its tests build, and their exact texts under both walks. Each
  document is proved back to front, one token at a time.
- `LibTests`, `GreenTests`: the unit tests as methods. Each one makes the
  test's builder calls on the modelled builder, finishes the tree, extracts
  its text, and promises the text the test asserts.

## Model

| member | source | states |
|---|---|---|
| Syntax.FromRaw | src/lib.rs:28-35 | The raw values `u32::MAX - 2`, `u32::MAX - 1` and `u32::MAX` decode to Indent, Dedent and Newline, each in both directions. Every lower value decodes to `Token` of the caller's decoding. (cstree2d/src/syntax.rs:19-26 is the same code.) |
| Syntax.IntoRaw | src/lib.rs:37-44 | Indent, Dedent and Newline encode to `u32::MAX - 2`, `u32::MAX - 1` and `u32::MAX`. `Token(s)` encodes to the caller's encoding of `s`. |
| Syntax.StaticText | src/lib.rs:46-51 | Markers have no static text. `Token(s)` has exactly the caller's static text for `s`. |
| Syntax.StaticTextSurvivesEncoding | src/lib.rs:28-51 | A kind decoded from its own encoding has the same static text as the kind itself, when the caller's kinds encode below the markers and round-trip. |
| Syntax.StaticTextOfRaw | src/lib.rs:28-51 | A raw value in the marker range decodes to a kind without static text. A lower value decodes to a kind with the caller's static text for its decoding. |
| Syntax.FromInner | cstree2d/src/syntax.rs:45-48 | `From<S>` always gives `Token(s)`, never a marker, for any caller. When the caller's kinds encode below the markers, its encoding lies below the marker range. |
| Syntax.TokenNeverEncodesMarker | cstree2d/src/syntax.rs:28-35 | When the caller's kinds encode below `u32::MAX - 2`, no `Token(s)` encodes to a marker value. |
| Syntax.EncodedDecodes | src/lib.rs:28-44 | When the caller's decoder accepts its own encodings, every encoded kind can be decoded. |
| Syntax.FromRawIntoRaw | cstree2d/src/syntax.rs:19-35 | `from_raw(into_raw(k)) == k` for every marker, with no condition. It also holds for `Token(s)` whenever the caller encodes that `s` below the markers and decodes the encoding back to `s`. |
| Syntax.IntoRawFromRaw | src/lib.rs:28-44 | `into_raw(from_raw(raw)) == raw` for every raw value the decoder accepts, when the caller's encoder inverts its decoder. |
| Syntax.IntoRawInjective | cstree2d/src/syntax.rs:28-35 | Under the same conditions, two kinds with the same encoding are equal. |
| Cstree.TokenOfReadsBack | src/lib.rs:124-144 | A stored token reads back as the call that stored it: `from_raw` of its raw kind is the call's kind, when the caller's kinds encode below the markers and round-trip. A `token` call stores its text; a static token stores none. |
| Cstree.NodeTransparent | src/lib.rs:203-211 | Grouping a run of siblings under a node leaves the document-order token sequence unchanged. |
| Cstree.ParseKeepsTokenOrder | src/lib.rs:146-149 | The trees read from an event stream hold exactly the tokens of the events read, in order. |
| Cstree.BuildKeepsTokenOrder | src/lib.rs:146-149 | A built tree is a node whose tokens, in document order, are the appended tokens in the order they were appended. |
| Cstree.FlatNode | src/lib.rs:146-149 | A start, a run of token events and a finish build one node with one leaf per token, in order. |
| Indentation.ReplayAppend | src/lib.rs:176-213 | The state after `a + b` is the state after `b`, started from the state after `a`. |
| Indentation.StackDepth | src/lib.rs:183-189 | If no Dedent meets an empty stack, the stack depth is the starting depth plus the Indents minus the Dedents. |
| Indentation.StackFrame | src/lib.rs:183-189 | A stretch whose Dedents never exceed its own Indents changes only the stack above its starting stack. |
| Indentation.BlockRestoresStack | src/lib.rs:183-189 | An Indent, a balanced body and a Dedent leave the stack exactly as they found it. |
| Indentation.DedentPops | src/lib.rs:187-189 | A Dedent drops the innermost stack entry and keeps the flag. On an empty stack it leaves the whole state unchanged. |
| OpenIndents.NonDedentStep | src/lib.rs:183-186 | After an Indent, the open Indents gain that Indent's text at the end. Any other token that is not a Dedent closes no Indent. |
| OpenIndents.DedentStep | src/lib.rs:187-189 | A Dedent closes the latest open Indent, and closes nothing when none is open. |
| OpenIndents.StackIsOpenIndents | src/lib.rs:183-189 | From an empty start, the stack holds exactly the texts of the open Indents, in order. Also, for every open Indent, Indents minus Dedents after it equals the number of open Indents after it. |
| Indentation.EventsDecode | src/lib.rs:179 | Every token a builder appends has a kind `from_raw` can decode, when the caller's decoder accepts its own encodings. |
| Lib.OutputAppend | src/lib.rs:176-213 | The text for `a + b` is the text for `a`, followed by the text for `b` walked from the state `a` leaves. The state carries across node boundaries. |
| Lib.OutputExtends | src/lib.rs:191-199 | Output is only ever appended: the text for a prefix is a prefix of the text. |
| Lib.NoIndentIsVerbatim | src/lib.rs:182-200 | Without Indents and from an empty stack, the text is the tokens' texts, with "\n" for each Newline. |
| Lib.IndentedLine | src/lib.rs:194-200 | A line of ordinary tokens met with indentation pending gets the stack, joined in push order, once in front. The flag is then cleared. |
| Lib.Walker.constructor | src/lib.rs:163-165 | The walk starts with empty output, an empty stack and nothing pending. |
| Lib.Walker.VisitToken | src/lib.rs:178-201 | The token arm moves the state by `Advance` and appends `Emit`. A missing text reads as "". |
| Lib.Walker.Walk | src/lib.rs:167-214 | Walking a node leaves the state `Replay` gives for its flattened tokens, and appends `Output` for them. |
| Lib.ExtractText | src/lib.rs:162-225 | The result is `Output` of the tree's tokens in document order, from an empty stack with nothing pending. |
| Lib.Builder.constructor | src/lib.rs:80-85 | A new builder has recorded nothing. |
| Lib.Builder.StartNode | src/lib.rs:112-114 | Appends exactly one node start for `Token(kind)`. |
| Lib.Builder.FinishNode | src/lib.rs:117-119 | Appends exactly one node finish. |
| Lib.Builder.Token | src/lib.rs:124-126 | Appends exactly one `Token(kind)` token carrying `text`. |
| Lib.Builder.Indent | src/lib.rs:129-131 | Appends exactly one Indent token carrying the indentation string. |
| Lib.Builder.Dedent | src/lib.rs:137-139 | Appends exactly one Dedent token carrying "". |
| Lib.Builder.Newline | src/lib.rs:142-144 | Appends exactly one Newline token carrying "\n". |
| Lib.Builder.Finish | src/lib.rs:147-149 | The tree built from the log, or `None` when the log is not one well-nested node. A built tree is a node that holds the logged tokens in order. |
| Green.AllWritesAppend | cstree2d/src/green.rs:142-185 | The writes for `a + b` are the writes for `a`, followed by the writes for `b` from the state `a` leaves. |
| Green.RunAppend | cstree2d/src/green.rs:157-181 | Writing `a + b` with early return is writing `a`, and then `b` only if `a` succeeded. |
| Green.RunClosedForm | cstree2d/src/green.rs:157-181 | A run succeeds exactly when the budget covers all writes. On success the sink holds all the strings joined. On failure it holds exactly the strings the budget allowed, and nothing after them. |
| Green.FailureWritesPrefix | cstree2d/src/green.rs:157-181 | What a run leaves written, failed or not, is a prefix of the error-free text. A failure leaves the budget exhausted. |
| Green.Formatter.constructor | cstree2d/src/green.rs:133 | A sink starts empty, with the given write budget. |
| Green.Formatter.WriteStr | cstree2d/src/green.rs:157 | One `write_str` call: it fails once the budget is spent, and otherwise appends the string. |
| Green.Walker.constructor | cstree2d/src/green.rs:188-189 | The walk starts with an empty stack and nothing pending. |
| Green.Walker.WriteIndentation | cstree2d/src/green.rs:156-158 | Writes the stack entries in push order and returns at the first failure. |
| Green.Walker.VisitToken | cstree2d/src/green.rs:144-172 | The token arm makes exactly the writes `Writes` lists, stopping at the first failure. On success the state moves by `Advance`. |
| Green.Walker.Walk | cstree2d/src/green.rs:135-186 | Walking a node makes the writes `AllWrites` lists for its flattened tokens, stopping at the first failure. On success the state is `Replay` of them. |
| Green.WalkStops | cstree2d/src/green.rs:174-182 | A failure inside one child is the failure of the whole node: later children write nothing. |
| Green.ExtractText | cstree2d/src/green.rs:130-197 | The sink ends as `Run` of the walk's writes from an empty stack. On success that is the whole text; on failure, exactly the writes that preceded it. |
| Green.WritesVersusEmit | cstree2d/src/green.rs:154-171 | Per token, this copy writes what the `src/lib.rs` copy appends. The exception is a Newline met with indentation pending: then the stack is written before it. |
| Green.AgreesWithLib | cstree2d/src/green.rs:142-185 | Where no Newline is met with indentation pending, both copies produce the same text. |
| Green.FullTextSnoc | cstree2d/src/green.rs:144-172 | One more token extends the text by the `src/lib.rs` piece. A Newline met with indentation pending adds the stack before it. |
| Green.SimulateAgrees | cstree2d/src/green.rs:142-185 | A forward pass over the tokens computes `Replay`, the `src/lib.rs` text and this copy's writes. |
| Green.BuiltTextsPresent | cstree2d/src/green.rs:84-98 | A builder that adds only Dedent and Newline as static tokens gives every Indent and ordinary token a text, so the walk's `unwrap` calls succeed. |
| Green.Builder.constructor | cstree2d/src/green.rs:24-28 | A new builder has recorded nothing. |
| Green.Builder.StartNode | cstree2d/src/green.rs:59-61 | Appends exactly one node start for `Token(kind)`. |
| Green.Builder.FinishNode | cstree2d/src/green.rs:64-66 | Appends exactly one node finish. |
| Green.Builder.Token | cstree2d/src/green.rs:71-73 | Appends exactly one `Token(kind)` token carrying `text`. |
| Green.Builder.Indent | cstree2d/src/green.rs:76-78 | Appends exactly one Indent token carrying the indentation string. |
| Green.Builder.Dedent | cstree2d/src/green.rs:84-86 | Appends exactly one static Dedent token, with no text. |
| Green.Builder.Dedents | cstree2d/src/green.rs:89-93 | Appends exactly `n` static Dedent tokens and nothing else. |
| Green.Builder.Newline | cstree2d/src/green.rs:96-98 | Appends exactly one static Newline token, with no text. |
| Green.Builder.Finish | cstree2d/src/green.rs:101-103 | The tree built from the log, or `None` when the log is not one well-nested node. A built tree holds the logged tokens in order, and all the texts the walk unwraps. |
| Scenarios.TestSyntaxSound | src/lib.rs:238-254 | The tests' kind type encodes below the markers and round-trips in both directions. |
| Scenarios.SimpleText | src/lib.rs:277-292 | "hello", " ", "world" reads as "hello world" under both walks. |
| Scenarios.NewlinesText | src/lib.rs:294-315 | The newline document reads as "line1\nline2" under both walks. |
| Scenarios.IndentedText | src/lib.rs:317-344 | The indented document reads as "line1\n    indented\n    still_indented" under both walks, and the stack ends empty. |
| Scenarios.NestedText | src/lib.rs:346-388 | The nested document reads as "start\n  level1\n    level2\n    still_level2\n  back_to_level1\nend" under both walks. |
| Scenarios.MixedText | src/lib.rs:390-416 | `Indent("    ")` then `Indent("# ")` reads as "start\n    # comment" under both walks. |
| Scenarios.BlankLineText | cstree2d/src/green.rs:154-161 | A blank line inside a block reads as "  a\n\n  b" under the `src/lib.rs` walk, but as "  a\n  \n  b" under this copy's walk. |
| Builds.SimpleBuild | src/lib.rs:279-287 | The test's builder calls build one node with three leaves whose tokens are the simple document. |
| Builds.NewlinesBuild | src/lib.rs:296-304 | The test's builder calls build one node with three leaves whose tokens are the newline document. |
| Builds.IndentedBuild | src/lib.rs:319-332 | The test's builder calls build one node with seven leaves whose tokens are the indented document, for either builder's Newline and Dedent. |
| Builds.NestedBuild | src/lib.rs:348-373 | The test's builder calls build one node with fifteen leaves whose tokens are the nested document. |
| Builds.MixedBuild | src/lib.rs:392-405 | The test's builder calls build one node with seven leaves whose tokens are the mixed document. |
| LibTests.BasicIndentation | src/lib.rs:256-275 | The built root has children. |
| LibTests.DumpTextSimple | src/lib.rs:277-292 | The text is "hello world". |
| LibTests.DumpTextWithNewlines | src/lib.rs:294-315 | The text is "line1\nline2". |
| LibTests.DumpTextWithIndentation | src/lib.rs:317-344 | The text is "line1\n    indented\n    still_indented". |
| LibTests.DumpTextWithNestedIndentation | src/lib.rs:346-388 | The text is "start\n  level1\n    level2\n    still_level2\n  back_to_level1\nend". |
| LibTests.DumpTextMixedIndentationStyles | src/lib.rs:390-416 | The text is "start\n    # comment". |
| GreenTests.ExtractString | cstree2d/tests/main.rs:61 | Extracting into a sink that never fails succeeds and yields the whole error-free text. |
| GreenTests.BasicIndentation | cstree2d/tests/main.rs:27-46 | The built root has children. |
| GreenTests.DumpTextSimple | cstree2d/tests/main.rs:48-63 | Extraction succeeds with "hello world". |
| GreenTests.DumpTextWithNewlines | cstree2d/tests/main.rs:65-86 | Extraction succeeds with "line1\nline2". |
| GreenTests.DumpTextWithIndentation | cstree2d/tests/main.rs:88-115 | Extraction succeeds with "line1\n    indented\n    still_indented". |
| GreenTests.DumpTextWithNestedIndentation | cstree2d/tests/main.rs:117-159 | Extraction succeeds with the nested document's text. |
| GreenTests.DumpTextMixedIndentationStyles | cstree2d/tests/main.rs:161-187 | Extraction succeeds with "start\n    # comment". |

## Left out

- The `cstree` library itself is not part of this model: `GreenNodeBuilder`, `NodeCache`, interners and resolvers, structural sharing, and red nodes. Instead, a leaf stores its resolved text, and `finish` is the well-nested reading `Cstree.Build`.
- Cstree.Build, Lib.Builder.Finish, Green.Builder.Finish: `None` on any log that is not one well-nested node is the model's own choice. What the library does with such a log (a node left open, an unmatched finish, several roots) is not modelled.
- Cstree.TokenOf: a `token` call always stores the text it is given. For a caller kind that has a static text, the library's `token` may store no text and serve the static text instead. The model does not capture that.
- Green.Builder.Dedent, Green.Builder.Newline: `GreenNodeBuilder::static_token` looks up the kind's static text. Dedent and Newline have none, and the library may reject such a call. The model accepts it and stores the token without text; neither walk reads that text.
- Syntax.StaticText is modelled with its own lemmas only. Neither walk and neither builder in the model reads it.
- cstree2d/src/red.rs, `Builder::red`, `Builder::inner`, `with_cache` and `with_interner`: these are plumbing around the library's caches and resolvers.
- The `Display` impl of `Syntax2D` (src/lib.rs:60-69) is presentation text only.
- `test_syntax_size` (src/lib.rs:418-425, cstree2d/tests/main.rs:16-23) is a claim about memory layout, which has no counterpart in Dafny.
- cstree2d/examples/example.rs prints debug output; cstree2d/src/lib.rs only re-exports modules.
- cstree2d/tests/main.rs calls a two-argument `extract_text` that returns a `String`. The `cstree2d` crate defines no such function; its `extract_text` (cstree2d/src/green.rs:130) writes to a `Formatter`. The tests are modelled over the crate's own function through `GreenTests.ExtractString`, which writes into a sink that never fails.
- A `Formatter` sink either takes a whole string or fails. Partial writes inside one `write_str` call are not modelled.
- Green.Walker.Walk: after a failure, the model does not specify the stack and flag. The source abandons them once the error is returned.
- Green.Walker.VisitToken, Green.Walker.Walk, Green.ExtractText: these require every Indent and ordinary token to have a text. In the source, a missing text makes `unwrap` panic.
- The caller's `S::from_raw` may panic outside its domain. The model makes it a partial function, and the walks require every token's kind to be decodable (`Decodable`).
- `usize` counts (`dedents(i)`, stack depth) are unbounded `nat`s. The model has no `usize` overflow.
- The crates' `#[derive]` impls (ordering, hashing, debug) are not modelled.
