# Verified models of the console's core

The console manages pods, and stands on four libraries that it carries with it: a YAML
parser and emitter, an HTTP router, a rate limiter and semantic versions. This project models
the parts of these in which the work is done, and proves what they promise.

- **YAML, from bytes to values and back.** The reader (`Decoding`, `Reader`) turns a byte
  stream, cut into pieces in any way, into characters. The scanner (`TokenQueue`,
  `ScannerLayout`, `ScannerTokens`, `TokenScanner`) turns text into tokens, inserting KEY tokens after the
  fact; which tokens, and where, is read off the text in one go. The parser
  (`YamlParser`) turns tokens into events with a stack of states, and is proved against a
  recursive reading of its grammar (`YamlGrammar`), whose events always nest (`YamlEvents`,
  `YamlNesting`) and carry exactly the data of the tokens (`YamlData`). The grammar in the comments of
  the source is a type of derivation trees (`YamlSyntax`, `YamlDerived`), and the code is compared
  with it (`YamlWritten`). The node builder (`YamlBuilder`, `YamlNodes`) and the decoder (`AliasExpansion`,
  `AliasMeaning`, `AliasDecoder`) turn events into values; what a node means is a relation of its own. The
  emitter (`YamlEmitter`) takes exactly the streams that the parser produces. For double-quoted scalars
  (`QuotedText`, `QuotedForms`, `QuotedWriter`, `QuotedGrammar`, `QuotedScanner`, `QuotedStream`) the form of
  every character, what every text stands for, and the way there and back are proved down to
  the octets (`Utf8`), including line folding.
- **The router.** `RoutePatterns` says what a pattern matches, `RouteTree` looks a path up in a radix
  tree, `RouteInsert` builds the tree. Shape, contents and counts of the tree are kept
  by every registration (`RouteInsert`, `RouteContents`, `RouteCounts`, `RouteStars`); which patterns are
  accepted is said without the tree (`RouteConflicts`). `Router` puts it together: a lookup in the tree gives
  what a scan of the list of routes gives.
  `CleanPath` and `Middleware` model path cleaning and the chain of handlers.
- **The rate limiter.** `TokenBucket`.
- **Versions, tags and pods.** `Semver`, `SemverOrder`, `ImageTags` and `Pods`; `Strings` and `Wrappers` are
  shared helpers.

`dafny verify dfyconfig.toml` checks everything.

## How the models are made

Code that updates fields is a class, with its loops as loops; each such method is tied to
functions of values, and the properties are proved about those. Bit masks on octets are
written as quotients and remainders. A panic or an error return is a failure value or a flag.
What a handler reads or writes, what the text holds, and what a piece of middleware does, is
arbitrary: the results hold for all of them. Integers are unbounded except where the width
matters (the index of the middleware chain, 64-bit numbers in versions, octets).

Some promises turned out not to hold as stated. For each there is a concrete counterexample, and the exact condition
under which it does hold:

- The parser does not read the grammar in its comments: it skips a token in a single pair without a key, and refuses an
  entry of a block mapping that begins with VALUE. `YamlWritten.StreamDeparts` says for whole streams when the two
  readings agree, `YamlDerived.CodeExact` when the code agrees with the derivations, `YamlGrammar.PairKeyDeparts` for one pair (`[? : a]` in `YamlGrammar.PairKeyCounterexample`, `[? : : a]` in
  `YamlGrammar.PairKeyOtherCounterexample`, `: a` in `YamlWritten.BlockMappingCounterexample`).
- The scanner's panic "should not happen" is reachable (`TokenScanner.CrookedPanics` and `TokenScanner.PanicRun`, on one text);
  `TokenScanner.Scanner.Run` panics on exactly the texts that the predicate `ScannerLayout.Panics` describes.
- An own key of a mapping does not always prevail over a merged one: the last pair or merge that has the key does
  (`AliasMeaning.KeyPrevails`; `{a: b, <<: {a: c}}` in `AliasMeaning.MergeBehindKey`).
- An alias does not always stand for the anchor in front of it: the last one of the document counts
  (`AliasMeaning.AnchorInFront`; `[&x a, *x, &x b]` in `AliasMeaning.AnchorBehindAlias`).
- Recoding to UTF-16 at a flush is right only for some characters, in either byte order (`QuotedStream.RecodeExact`,
  `QuotedStream.RecodeBigExact`; U+1F600 and U+0061 in `QuotedStream.RecodeCounterexamples`).
- A route behind a registered catch-all is accepted (`Router.AcceptedStars`; `/*x/y` in `RouteStars.StarCounterexample`).
- A request for more tokens than the bucket holds can break the bound for windows, because the tick of a full bucket is
  not moved (`TokenBucket.WindowExact`; `TokenBucket.WindowCounterexample`).
- A one-letter path without a root loses its final slash (`CleanPath.UnrootedExact`; `a/` in
  `CleanPath.UnrootedCounterexample`).
- Handlers that call Next too often drive the index out of its eight bits, with Aborts or without (`Middleware.ChainIndex`;
  127 calls in `Middleware.RepeatedNext`, 128 and an Abort in `Middleware.AbortedRepeat`).
- A pre-release word of digits passes validation, but does not parse back (`Semver.PrintParses`; the word `1` in
  `Semver.PrintCounterexample`).

## Model

| member | source | states |
|---|---|---|
| `YamlEvents.StreamLanguage` | Godeps/_workspace/src/gopkg.in/yaml.v2/decode.go:105-184 | The automaton for event lists ends after exactly the lists that the node builder takes apart: STREAM-START (DOCUMENT-START node DOCUMENT-END)* STREAM-END, with matched collections and mappings made of pairs (both directions) |
| `YamlEvents.PrefixLanguage` | Godeps/_workspace/src/gopkg.in/yaml.v2/emitterc.go:211-269 | The automaton can run on a list exactly if the list is the beginning of such a stream (both directions); it is what the emitter takes |
| `YamlGrammar.Stream` | Godeps/_workspace/src/gopkg.in/yaml.v2/parserc.go:175-192 | The whole grammar read as recursive functions over the token list ends for every list, with at most four events per token |
| `YamlData.StreamCarries` | Godeps/_workspace/src/gopkg.in/yaml.v2/parserc.go:62-1006 | For every token list, in order and one for one: the data of the events is that of the tokens, with nothing dropped, doubled, moved or changed (texts and styles of scalars, names of aliases, anchors, full tags, directives, versions, explicit document ends, starts of flow sequences and block mappings); behind a complete stream is exactly what follows its STREAM-END; an abandoned one has a first part of the data; the implicit flags go with tag and style |
| `YamlData.NodeCarries` | Godeps/_workspace/src/gopkg.in/yaml.v2/parserc.go:360-574 | The same for one node: anchor, resolved tag, text and style in the events of a node are those of the tokens it takes |
| `YamlData.TagInFull` | Godeps/_workspace/src/gopkg.in/yaml.v2/parserc.go:431-450 | A resolved tag is the prefix that the document, or else the defaults, declare for its handle, and the suffix behind it |
| `YamlDerived.StreamExact` | Godeps/_workspace/src/gopkg.in/yaml.v2/parserc.go:7-43 | For every token list, event list and rest: the recursive reading of the grammar as written is complete with these events and this rest if and only if there is a derivation tree of the grammar in the comments that spells these tokens and has these events; so that grammar is unambiguous |
| `YamlSyntax.NodeReads` | Godeps/_workspace/src/gopkg.in/yaml.v2/parserc.go:12-43 | One half for nodes: what a derivation tree spells, in front of a token at which a node ends, is read as the events of the tree |
| `YamlDerived.TreeOf` | Godeps/_workspace/src/gopkg.in/yaml.v2/parserc.go:12-43 | The other half: from a complete reading of a node, a tree that spells the tokens taken and has its events |
| `YamlDerived.CodeExact` | Godeps/_workspace/src/gopkg.in/yaml.v2/parserc.go:7-43 | The code reads what the grammar in the comments derives if none of its two departures occurs; where either accepts, only if |
| `YamlGrammar.Documents` | Godeps/_workspace/src/gopkg.in/yaml.v2/parserc.go:199-332 | Implicit and explicit documents, directives and document ends: bounded events, never more tokens left than given |
| `YamlGrammar.PairKeyDeparts` | Godeps/_workspace/src/gopkg.in/yaml.v2/parserc.go:834-849 | Where the grammar in the source's comments or the parser completes a single pair of a flow sequence, the two give the same events if and only if the key is present or absent in one of two harmless forms, since the code skips a token that the grammar leaves |
| `YamlGrammar.PairKeyCounterexample` | Godeps/_workspace/src/gopkg.in/yaml.v2/parserc.go:834-849 | `[? : a]` is in the written grammar and is refused by the parser |
| `YamlGrammar.PairKeyOtherCounterexample` | Godeps/_workspace/src/gopkg.in/yaml.v2/parserc.go:834-849 | `[? : : a]` is not in the written grammar and is read by the parser |
| `YamlWritten.StreamDeparts` | Godeps/_workspace/src/gopkg.in/yaml.v2/parserc.go:7-43 | For every token list: the code reads a whole stream as the grammar in the source's comments, read recursively throughout, if in that reading no entry of a block mapping begins with VALUE and no single pair of a flow sequence lacks its key in a harmful form; where either reading is complete, only if |
| `YamlWritten.PairKeyBoth` | Godeps/_workspace/src/gopkg.in/yaml.v2/parserc.go:834-849 | Where a single pair is read differently, one of the two readings fails or the code loses a closing bracket, which nothing later makes up for |
| `YamlWritten.BlockMappingCounterexample` | Godeps/_workspace/src/gopkg.in/yaml.v2/parserc.go:30-33 | The stream `: a` is in the written grammar and is refused by the parser |
| `YamlNesting.NodeNests` | Godeps/_workspace/src/gopkg.in/yaml.v2/parserc.go:360-574 | The events of a node, for every token list, leave the automaton where one complete node leaves it, or stop in the middle after an error |
| `YamlNesting.FlowSequenceNests` | Godeps/_workspace/src/gopkg.in/yaml.v2/parserc.go:771-891 | The same for flow sequences, single pairs included |
| `YamlNesting.FlowMappingNests` | Godeps/_workspace/src/gopkg.in/yaml.v2/parserc.go:905-993 | The same for flow mappings |
| `YamlNesting.BlockKeyNests` | Godeps/_workspace/src/gopkg.in/yaml.v2/parserc.go:676-757 | The same for block mappings |
| `YamlNesting.HeaderOk` | Godeps/_workspace/src/gopkg.in/yaml.v2/parserc.go:1014-1096 | Directives that are accepted have distinct handles, and are well-formed if their tokens are |
| `YamlNesting.StreamNests` | Godeps/_workspace/src/gopkg.in/yaml.v2/parserc.go:62-1006 | For every token list the events nest; a successful parse gives one whole stream; well-formed tokens give well-formed events |
| `YamlParser.Parser.constructor` | Godeps/_workspace/src/gopkg.in/yaml.v2/parserc.go:93-96 | A new parser owes the events that the grammar reads from its tokens |
| `YamlParser.Parser.Parse` | Godeps/_workspace/src/gopkg.in/yaml.v2/parserc.go:62-73 | Each event is the next one that the grammar reads, and what is owed afterwards is the rest of them; the event moves the automaton from where the old stack of states stands to where the new one does; an error is reported only where the grammar fails; nothing follows the end or an error |
| `YamlParser.Parser.OpenPlaces` | Godeps/_workspace/src/gopkg.in/yaml.v2/parserc.go:93-170 | In every reachable state the events produced so far run through the automaton, and leave as many collections open as the current and the waiting states weigh together, where the three states inside a single pair of a flow sequence weigh two; the automaton stands exactly where the stack of states says (`Valid`) |
| `YamlParser.Parser.StateMachine` | Godeps/_workspace/src/gopkg.in/yaml.v2/parserc.go:93-170 | The dispatch over 24 states keeps that promise from every reachable state; the state and mark stacks never underflow |
| `YamlParser.Parser.ParseStreamStart` | Godeps/_workspace/src/gopkg.in/yaml.v2/parserc.go:175-192 | The same for the start of the stream |
| `YamlParser.Parser.ProcessDirectives` | Godeps/_workspace/src/gopkg.in/yaml.v2/parserc.go:1014-1073 | The loop over directives computes what the recursive reading gives, with the default handles added |
| `YamlParser.Parser.AppendTagDirective` | Godeps/_workspace/src/gopkg.in/yaml.v2/parserc.go:1076-1096 | A duplicate handle is refused or ignored as asked, and otherwise the directive is added at the end |
| `YamlParser.Parser.ParseDocumentStart` | Godeps/_workspace/src/gopkg.in/yaml.v2/parserc.go:199-277 | The same for implicit and explicit document starts and the end of the stream |
| `YamlParser.Parser.ParseDocumentContent` | Godeps/_workspace/src/gopkg.in/yaml.v2/parserc.go:283-299 | The same for the content of a document, empty or not |
| `YamlParser.Parser.ParseDocumentEnd` | Godeps/_workspace/src/gopkg.in/yaml.v2/parserc.go:306-332 | The same for document ends |
| `YamlParser.Parser.ParseNode` | Godeps/_workspace/src/gopkg.in/yaml.v2/parserc.go:360-574 | The same for nodes: anchors, tags, aliases, scalars and the starts of collections; what their data is, is `YamlData.NodeCarries` |
| `YamlParser.Parser.ParseBlockSequenceEntry` | Godeps/_workspace/src/gopkg.in/yaml.v2/parserc.go:580-627 | The same for block sequences; the mark pushed at the start is popped at the end |
| `YamlParser.Parser.ParseIndentlessSequenceEntry` | Godeps/_workspace/src/gopkg.in/yaml.v2/parserc.go:632-664 | The same for sequences without indentation |
| `YamlParser.Parser.ParseBlockMappingKey` | Godeps/_workspace/src/gopkg.in/yaml.v2/parserc.go:676-722 | The same for keys of block mappings |
| `YamlParser.Parser.ParseBlockMappingValue` | Godeps/_workspace/src/gopkg.in/yaml.v2/parserc.go:734-757 | The same for values of block mappings |
| `YamlParser.Parser.ParseFlowSequenceEntry` | Godeps/_workspace/src/gopkg.in/yaml.v2/parserc.go:771-827 | The same for entries of flow sequences |
| `YamlParser.Parser.ParseFlowSequenceEntryMappingKey` | Godeps/_workspace/src/gopkg.in/yaml.v2/parserc.go:834-849 | The same for the key of a single pair, with the token that it skips |
| `YamlParser.Parser.ParseFlowSequenceEntryMappingValue` | Godeps/_workspace/src/gopkg.in/yaml.v2/parserc.go:855-873 | The same for the value of a single pair |
| `YamlParser.Parser.ParseFlowSequenceEntryMappingEnd` | Godeps/_workspace/src/gopkg.in/yaml.v2/parserc.go:879-891 | The same for the end of a single pair |
| `YamlParser.Parser.ParseFlowMappingKey` | Godeps/_workspace/src/gopkg.in/yaml.v2/parserc.go:905-965 | The same for keys of flow mappings |
| `YamlParser.Parser.ParseFlowMappingValue` | Godeps/_workspace/src/gopkg.in/yaml.v2/parserc.go:971-993 | The same for values of flow mappings |
| `YamlParser.ParseStream` | Godeps/_workspace/src/gopkg.in/yaml.v2/parserc.go:62-73 | Run to the end, the parser stops for every finite token list, its events and its success are those of the grammar, and its events carry the data of the tokens, all of it if it succeeds |
| `YamlBuilder.Builder.Skip` | Godeps/_workspace/src/gopkg.in/yaml.v2/decode.go:67-77 | Moves on by exactly one event, and fails only if the parser does |
| `YamlBuilder.Builder.Parse` | Godeps/_workspace/src/gopkg.in/yaml.v2/decode.go:105-124 | The node is the tree that the consumed events spell out, anchors are recorded in document order, and the panic on an unknown event cannot happen |
| `YamlBuilder.Builder.Sequence` | Godeps/_workspace/src/gopkg.in/yaml.v2/decode.go:164-173 | The same for sequences, whose anchor comes before those of its items |
| `YamlBuilder.Builder.Mapping` | Godeps/_workspace/src/gopkg.in/yaml.v2/decode.go:175-184 | The same for mappings, which always get an even number of children |
| `YamlBuilder.Builder.Document` | Godeps/_workspace/src/gopkg.in/yaml.v2/decode.go:134-145 | One document, or none at the end of the stream; the panic on a missing document end cannot happen |
| `YamlBuilder.NewBuilder` | Godeps/_workspace/src/gopkg.in/yaml.v2/decode.go:40-58 | For every token list: the panic on a missing stream start cannot happen; the builder stands behind it with all the events of the grammar's reading ahead, or the grammar's reading fails |
| `YamlBuilder.BuildFirst` | Godeps/_workspace/src/gopkg.in/yaml.v2/yaml.go:82-84 | For every token list: the first document, or none in an empty stream, is the one that the events spell out, with its anchors; a failure means that the grammar's reading fails; no panic |
| `YamlBuilder.BuildAll` | Godeps/_workspace/src/gopkg.in/yaml.v2/decode.go:105-145 | For every token list: building document after document succeeds if and only if the grammar's reading is complete, and then its events are the flattening of documents whose nodes and anchors are the ones returned; no panic |
| `YamlNodes.StreamSpells` | Godeps/_workspace/src/gopkg.in/yaml.v2/decode.go:105-184 | The nodes that are built, walked through in order, spell the events they were built from: every scalar with tag, text and flag, every alias, start and end in place |
| `YamlNodes.NodeSpells` | Godeps/_workspace/src/gopkg.in/yaml.v2/decode.go:147-184 | The same for one node |
| `YamlNodes.SpellOnce` | Godeps/_workspace/src/gopkg.in/yaml.v2/decode.go:147-184 | Different nodes are spelled differently, whatever follows, so that the events determine the node |
| `YamlNodes.AnchorsSpell` | Godeps/_workspace/src/gopkg.in/yaml.v2/decode.go:99-103 | The recorded anchors are those of the events, in order, each with the node whose spelling begins at its event |
| `YamlEmitter.NothingHeldBack` | Godeps/_workspace/src/gopkg.in/yaml.v2/emitterc.go:136-170 | When a stream is complete, the look-ahead rule holds back none of its events |
| `YamlEmitter.EmptyKnown` | Godeps/_workspace/src/gopkg.in/yaml.v2/emitterc.go:136-170 | The start of a collection is not written before the event behind it is there, which tells whether the collection is empty |
| `YamlEmitter.ParserOutputIsEmitted` | Godeps/_workspace/src/gopkg.in/yaml.v2/emitterc.go:113-127 | Every stream that the parser makes of well-formed tokens, and every beginning of one, is one that the emitter takes |
| `YamlEmitter.Emitter.NeedMoreEvents` | Godeps/_workspace/src/gopkg.in/yaml.v2/emitterc.go:136-170 | The loop over the queue decides the look-ahead rule |
| `YamlEmitter.Emitter.Emit` | Godeps/_workspace/src/gopkg.in/yaml.v2/emitterc.go:113-127 | Events are written in the order of submission; an event is refused exactly where the list stops being the beginning of a stream or its data is malformed; at the end of the stream the queue is empty |
| `YamlEmitter.Emitter.WriteHead` | Godeps/_workspace/src/gopkg.in/yaml.v2/emitterc.go:113-127 | The event at the head is written if and only if the automaton allows it and its data is well-formed |
| `YamlEmitter.Emitter.AnalyzeEvent` | Godeps/_workspace/src/gopkg.in/yaml.v2/emitterc.go:1133-1186 | An event is refused only for malformed data; otherwise the anchor to be written is that of the event, and handle and suffix to be written are those of its tag, or none where the tag is not written |
| `YamlEmitter.Emitter.AnalyzeTag` | Godeps/_workspace/src/gopkg.in/yaml.v2/emitterc.go:967-981 | The tag is split at the first declared prefix that it begins with and goes on behind, into handle and suffix, or has no handle |
| `YamlEmitter.TagReadsBack` | Godeps/_workspace/src/gopkg.in/yaml.v2/emitterc.go:967-981 | Handle and suffix, resolved by the parser with the same directives, are the tag again |
| `YamlEmitter.Emitter.DeclareTags` | Godeps/_workspace/src/gopkg.in/yaml.v2/emitterc.go:314-352 | Directives are taken if and only if they are well-formed and distinct, and then stand, with the default ones where they are missing, in the order in which the parser has them |
| `YamlEmitter.Emitter.AnalyzeTagDirective` | Godeps/_workspace/src/gopkg.in/yaml.v2/emitterc.go:920-941 | A tag directive is accepted exactly if its handle is an alphanumeric word between exclamation marks and its prefix is not empty |
| `YamlEmitter.Emitter.StateMachine` | Godeps/_workspace/src/gopkg.in/yaml.v2/emitterc.go:211-269 | Every state of the emitter stands for one configuration of the automaton, and moves with it |
| `YamlEmitter.Emitter.EmitStreamStart` | Godeps/_workspace/src/gopkg.in/yaml.v2/emitterc.go:272-308 | Takes only STREAM-START and brings the indentation into the range 2 to 9 |
| `YamlEmitter.Emitter.EmitDocumentStart` | Godeps/_workspace/src/gopkg.in/yaml.v2/emitterc.go:311-422 | Takes a document start with valid, distinct directives, or the end of the stream |
| `YamlEmitter.Emitter.EmitDocumentEnd` | Godeps/_workspace/src/gopkg.in/yaml.v2/emitterc.go:431-453 | Takes only a document end and forgets the tag directives |
| `YamlEmitter.Emitter.EmitFlowSequenceItem` | Godeps/_workspace/src/gopkg.in/yaml.v2/emitterc.go:456-501 | Items and end of a flow sequence; indentation and flow level never underflow |
| `YamlEmitter.Emitter.EmitFlowMappingKey` | Godeps/_workspace/src/gopkg.in/yaml.v2/emitterc.go:504-555 | Keys and end of a flow mapping |
| `YamlEmitter.Emitter.EmitBlockSequenceItem` | Godeps/_workspace/src/gopkg.in/yaml.v2/emitterc.go:578-599 | Items and end of a block sequence |
| `YamlEmitter.Emitter.EmitBlockMappingKey` | Godeps/_workspace/src/gopkg.in/yaml.v2/emitterc.go:602-627 | Keys and end of a block mapping |
| `YamlEmitter.Emitter.EmitNode` | Godeps/_workspace/src/gopkg.in/yaml.v2/emitterc.go:648-738 | Takes exactly the events that start a node, with well-formed data, and goes on in flow or block style as the collection, its context and its contents say |
| `YamlEmitter.Emitter.EmitSequenceStart` | Godeps/_workspace/src/gopkg.in/yaml.v2/emitterc.go:707-722 | A sequence becomes a flow sequence if and only if it is inside one, the output is canonical, it asks for it, or it is empty |
| `YamlEmitter.Emitter.EmitMappingStart` | Godeps/_workspace/src/gopkg.in/yaml.v2/emitterc.go:724-738 | The same for mappings |
| `YamlEmitter.Emitter.CheckSimpleKey` | Godeps/_workspace/src/gopkg.in/yaml.v2/emitterc.go:764-795 | A simple key has at most 128 octets; an alias or an empty collection is one if and only if it has |
| `YamlEmitter.Emitter.EmitScalar` | Godeps/_workspace/src/gopkg.in/yaml.v2/emitterc.go:683-704 | A scalar is written one level further in, at an indentation of at least two, and the indentation is restored |
| `Utf8.DecodeEncode` | Godeps/_workspace/src/gopkg.in/yaml.v2/readerc.go:150-243 | Decoding a character undoes encoding it, whatever follows |
| `Utf8.DecodeEncodeAll` | Godeps/_workspace/src/gopkg.in/yaml.v2/readerc.go:150-243 | The same for whole texts |
| `Utf8.DecodeAll` | Godeps/_workspace/src/gopkg.in/yaml.v2/readerc.go:150-243 | What decodes is the encoding of its characters: overlong forms, surrogates and values beyond U+10FFFF are refused |
| `QuotedText.PrintableIsPoint` | Godeps/_workspace/src/gopkg.in/yaml.v2/yamlprivateh.go:63-73 | The test on octets for a printable character is the one on characters: line feed, U+0020 to U+007E, and U+00A0 to U+FFFD but for the byte order mark |
| `QuotedText.BreakIsPoint` | Godeps/_workspace/src/gopkg.in/yaml.v2/yamlprivateh.go:102-108 | The test on octets for a line break holds for the five break characters |
| `QuotedText.HexRoundTrip` | Godeps/_workspace/src/gopkg.in/yaml.v2/scannerc.go:2428-2439 | Hexadecimal digits stand for the number that they were written for |
| `QuotedText.EscapeRoundTrip` | Godeps/_workspace/src/gopkg.in/yaml.v2/scannerc.go:2363-2466 | Every escape that the emitter writes, short or numeric, is read as the character it was written for |
| `QuotedText.QuotedRoundTrip` | Godeps/_workspace/src/gopkg.in/yaml.v2/emitterc.go:1429-1548 | Every well-formed UTF-8 value, written as a double-quoted scalar in any style (Unicode or not, folded at any width, with any line break, at an indentation of at least one), is scanned back to itself, whatever follows the scalar |
| `QuotedForms.WrittenExact` | Godeps/_workspace/src/gopkg.in/yaml.v2/emitterc.go:1429-1548 | For every value and style, the text between the quotes is one item per character, each said by its index: itself, its short escape if it has one, else the shortest of \x, \u, \U with capital digits; a space is a folded line exactly where lines may be broken, the line is too long, and the space is alone, not first and not last |
| `QuotedForms.EscapedExact` | Godeps/_workspace/src/gopkg.in/yaml.v2/emitterc.go:1436-1438 | A character is escaped if and only if it is a quote, a backslash, a break, not printable, or beyond ASCII where that is not wanted; the test on octets says so |
| `QuotedForms.EscapeForms` | Godeps/_workspace/src/gopkg.in/yaml.v2/emitterc.go:1459-1515 | What stands for an escaped character: its letter, or its number with two, four or eight digits |
| `QuotedWriter.Writer.Flush` | Godeps/_workspace/src/gopkg.in/yaml.v2/writerc.go:11-28 | What the handler has taken and what is buffered stay the same text |
| `QuotedWriter.Writer.Put` | Godeps/_workspace/src/gopkg.in/yaml.v2/emitterc.go:16-24 | One octet more, within the buffer of 128 octets |
| `QuotedWriter.Writer.PutBreak` | Godeps/_workspace/src/gopkg.in/yaml.v2/emitterc.go:27-48 | The line break of the settings, and column 0 |
| `QuotedWriter.Writer.Write` | Godeps/_workspace/src/gopkg.in/yaml.v2/emitterc.go:51-76 | The octets of one character are copied; no index leaves the buffer |
| `QuotedWriter.Writer.WriteIndent` | Godeps/_workspace/src/gopkg.in/yaml.v2/emitterc.go:1201-1219 | A line break if and only if the line is not an indentation yet, is beyond it, or ends at it in something other than a space; then spaces up to the indentation, and nothing else |
| `QuotedWriter.Writer.WriteIndicator` | Godeps/_workspace/src/gopkg.in/yaml.v2/emitterc.go:1221-1234 | An indicator, behind a space if one is needed |
| `QuotedWriter.Writer.WriteDoubleQuoted` | Godeps/_workspace/src/gopkg.in/yaml.v2/emitterc.go:1429-1548 | Unless the handler fails, the text of the scalar is written, wherever the buffer fills up |
| `QuotedWriter.DecodeAt` | Godeps/_workspace/src/gopkg.in/yaml.v2/emitterc.go:1440-1458 | The loop over the octets of a character gives the character |
| `QuotedScanner.Scanner.Escape` | Godeps/_workspace/src/gopkg.in/yaml.v2/scannerc.go:2363-2466 | An escape sequence is read whole, with its value, or refused |
| `QuotedScanner.ScanEscape` | Godeps/_workspace/src/gopkg.in/yaml.v2/scannerc.go:2363-2466 | The loop over hexadecimal digits, the check of their value and its octets give the value and length of the escape sequence that the function on the text gives, or its error, also at the end of the text |
| `QuotedGrammar.LettersExact` | Godeps/_workspace/src/gopkg.in/yaml.v2/scannerc.go:2369-2409 | Eighteen characters behind a backslash stand for one character each, in UTF-8, by a table; no other one is an escape of this kind |
| `QuotedGrammar.DigitsExact` | Godeps/_workspace/src/gopkg.in/yaml.v2/yamlprivateh.go:41-55 | A hexadecimal digit, small or capital, has exactly its value |
| `QuotedGrammar.PlacesExact` | Godeps/_workspace/src/gopkg.in/yaml.v2/scannerc.go:2428-2439 | Every digit of an escape has its place value |
| `QuotedScanner.Scanner.Words` | Godeps/_workspace/src/gopkg.in/yaml.v2/scannerc.go:2337-2475 | The loop over a word, with its escapes |
| `QuotedScanner.Scanner.Blanks` | Godeps/_workspace/src/gopkg.in/yaml.v2/scannerc.go:2488-2538 | The loop over blanks and breaks leaves the text and the value where the functions on the text put them; what that value is, is `QuotedGrammar.GapReads` and `QuotedGrammar.FoldingLaw` |
| `QuotedGrammar.GapReads` | Godeps/_workspace/src/gopkg.in/yaml.v2/scannerc.go:2488-2538 | For every gap of blanks and breaks between two words: without a break its value is its blanks; with breaks, all blanks are dropped and its value is that of its lines |
| `QuotedGrammar.FoldingLaw` | Godeps/_workspace/src/gopkg.in/yaml.v2/scannerc.go:2519-2538 | One break that is read as a line feed is one space, and n of them are n - 1 line feeds |
| `QuotedScanner.Scanner.ScanFlowScalar` | Godeps/_workspace/src/gopkg.in/yaml.v2/scannerc.go:2304-2557 | For every text, the loops accept if and only if the text is one of words, escapes, gaps and escaped breaks up to a right quote, without a document indicator at the start of a line, and the value is the one that these items stand for, read off them apart from the scanner |
| `QuotedGrammar.TextExact` | Godeps/_workspace/src/gopkg.in/yaml.v2/scannerc.go:2304-2557 | The scanner gives this value and this rest if and only if the text is spelled by items that stand for the value, a right quote, and the rest |
| `QuotedGrammar.ItemsRead` | Godeps/_workspace/src/gopkg.in/yaml.v2/scannerc.go:2304-2557 | One half: every list of items is read as its values |
| `QuotedGrammar.ItemsOf` | Godeps/_workspace/src/gopkg.in/yaml.v2/scannerc.go:2304-2557 | The other half: the items of an accepted text |
| `QuotedStream.StreamRoundTrip` | Godeps/_workspace/src/gopkg.in/yaml.v2/scannerc.go:2304-2557 | What the emitter writes for a value is a stream that the reader accepts and passes on unchanged, and from which the scanner gets the value, up to the NUL at the end |
| `QuotedStream.RecodeExact` | Godeps/_workspace/src/gopkg.in/yaml.v2/writerc.go:30-80 | The recoding to UTF-16 at a flush is little-endian UTF-16 if and only if the character is in the basic plane, or beyond it in one block of 1024 out of 64 |
| `QuotedStream.RecodeBigExact` | Godeps/_workspace/src/gopkg.in/yaml.v2/writerc.go:30-80 | It is big-endian UTF-16 if and only if the character is in the basic plane and its two octets are the same |
| `QuotedStream.RecodeCounterexamples` | Godeps/_workspace/src/gopkg.in/yaml.v2/writerc.go:30-80 | U+1F600 is recoded wrongly, and output asked for in big-endian order is little-endian |
| `Decoding.NextStable` | Godeps/_workspace/src/gopkg.in/yaml.v2/readerc.go:141-350 | Bytes that come later do not change what is decided about a character |
| `Decoding.Utf8Passes` | Godeps/_workspace/src/gopkg.in/yaml.v2/readerc.go:150-381 | Allowed characters in UTF-8 pass unchanged |
| `Decoding.Utf16Passes` | Godeps/_workspace/src/gopkg.in/yaml.v2/readerc.go:245-350 | Allowed characters in UTF-16, in both byte orders and with surrogate pairs, are read as what they are |
| `Decoding.DecodeExact` | Godeps/_workspace/src/gopkg.in/yaml.v2/readerc.go:141-382 | In every encoding, a stream behind its mark comes to these characters if and only if it is their encoding and all of them are allowed |
| `Decoding.MarkedPasses` | Godeps/_workspace/src/gopkg.in/yaml.v2/readerc.go:25-53 | With its byte order mark in front, the encoding of a text is read as that text if and only if all its characters are allowed |
| `Decoding.UnmarkedPasses` | Godeps/_workspace/src/gopkg.in/yaml.v2/readerc.go:25-53 | Without one, UTF-8 is read as what it is if and only if it does not begin with a byte order mark, which is dropped |
| `Reader.Buffers.UpdateRaw` | Godeps/_workspace/src/gopkg.in/yaml.v2/readerc.go:56-85 | Whatever the handler delivers, what is still to be decoded stays the same stream, and there is progress, the end, or a full buffer |
| `Reader.Buffers.DetermineEncoding` | Godeps/_workspace/src/gopkg.in/yaml.v2/readerc.go:25-53 | The encoding found is that of the whole stream, however its first bytes arrive |
| `Reader.Buffers.DecodeRaw` | Godeps/_workspace/src/gopkg.in/yaml.v2/readerc.go:141-382 | Every complete character is decoded and stored in order; a failure means that the stream does not decode |
| `Reader.Buffers.UpdateBuffer` | Godeps/_workspace/src/gopkg.in/yaml.v2/readerc.go:91-394 | For requests of up to 192 characters no index leaves the two buffers, the loop ends, and the scanner has enough characters or all of them and a NUL; a failure without an input error means that the whole stream does not decode |
| `Reader.AtTheEnd` | Godeps/_workspace/src/gopkg.in/yaml.v2/readerc.go:384-393 | At the end the scanner has seen the decoding of the whole stream and one NUL, however the stream was cut |
| `TokenQueue.KeysInserted` | Godeps/_workspace/src/gopkg.in/yaml.v2/scannerc.go:1274-1296 | Inserting in front of the top candidate never reaches consumed tokens and leaves the candidates below it right |
| `TokenQueue.KeysSaved` | Godeps/_workspace/src/gopkg.in/yaml.v2/scannerc.go:867-897 | A saved candidate keeps the candidates increasing up the flow levels |
| `TokenQueue.LevelsPop` | Godeps/_workspace/src/gopkg.in/yaml.v2/scannerc.go:966-987 | With a block open the indentation stack is not empty, and closing it goes strictly down |
| `TokenQueue.DepthInserted` | Godeps/_workspace/src/gopkg.in/yaml.v2/apic.go:8-25 | A token inserted anywhere changes the balance of blocks by its own part only |
| `TokenQueue.NeverBelowInserted` | Godeps/_workspace/src/gopkg.in/yaml.v2/apic.go:8-25 | A block start inserted anywhere keeps every beginning of the list balanced |
| `TokenQueue.SpelledInserted` | Godeps/_workspace/src/gopkg.in/yaml.v2/apic.go:8-25 | A token that the scanner adds anywhere does not change what the text spells out |
| `ScannerLayout.PanicStep` | Godeps/_workspace/src/gopkg.in/yaml.v2/scannerc.go:867-878 | A lexeme makes the scanner panic if and only if it may begin a key, in block context, on the line of the token in front of it, where no key is allowed, in the column of the indentation that is left after closing blocks, and no required key has become too old |
| `ScannerLayout.TokenEffects` | Godeps/_workspace/src/gopkg.in/yaml.v2/scannerc.go:1105-1336 | Behind every token that is accepted: whether a key may follow, the flow level, and which candidates are kept, noted and given up |
| `ScannerLayout.UnrollExact` | Godeps/_workspace/src/gopkg.in/yaml.v2/scannerc.go:966-987 | Blocks are closed exactly down to the last indentation that is at most the column |
| `ScannerLayout.FreshPanics` | Godeps/_workspace/src/gopkg.in/yaml.v2/scannerc.go:842-863 | To give up candidates earlier than at the next token does not change whether a text panics |
| `ScannerLayout.InsideFromStart` | Godeps/_workspace/src/gopkg.in/yaml.v2/scannerc.go:867-878 | A whole text in which every quoted scalar and every flow collection ends to the right of the indentation of its block does not panic |
| `ScannerLayout.InsideNeverPanics` | Godeps/_workspace/src/gopkg.in/yaml.v2/scannerc.go:867-878 | The same from any layout that is right of its indentation, as the induction needs it |
| `TokenScanner.Scanner.NeedsMore` | Godeps/_workspace/src/gopkg.in/yaml.v2/scannerc.go:630-653 | More is needed if and only if the queue is empty or a live candidate stands for its head, and never after STREAM-END |
| `TokenScanner.Scanner.Insert` | Godeps/_workspace/src/gopkg.in/yaml.v2/apic.go:8-25 | With its compaction, the insertion is the insertion into the list of waiting tokens |
| `TokenScanner.Scanner.StaleKeys` | Godeps/_workspace/src/gopkg.in/yaml.v2/scannerc.go:842-863 | Exactly the candidates on earlier lines or more than 1024 characters back are given up; it fails if and only if one of them is required |
| `TokenScanner.Scanner.SaveKey` | Godeps/_workspace/src/gopkg.in/yaml.v2/scannerc.go:867-897 | A candidate is noted if a key is allowed; it panics if and only if one is required but not allowed |
| `TokenScanner.Scanner.RemoveKey` | Godeps/_workspace/src/gopkg.in/yaml.v2/scannerc.go:900-913 | The top candidate is given up; it fails if and only if that one is required |
| `TokenScanner.Scanner.RollIndent` | Godeps/_workspace/src/gopkg.in/yaml.v2/scannerc.go:937-961 | A block opens if and only if the column is to the right of the indentation, and its token goes to the numbered place |
| `TokenScanner.Scanner.UnrollIndent` | Godeps/_workspace/src/gopkg.in/yaml.v2/scannerc.go:966-987 | Blocks are closed until the indentation is at most the column, and no further; the stack never underflows |
| `TokenScanner.Scanner.FetchStreamStart` | Godeps/_workspace/src/gopkg.in/yaml.v2/scannerc.go:990-1013 | The first token, and the invariant of the scanner |
| `TokenScanner.Scanner.FetchStreamEnd` | Godeps/_workspace/src/gopkg.in/yaml.v2/scannerc.go:1016-1044 | Outside flow collections every open block is closed before STREAM-END |
| `TokenScanner.Scanner.FetchValue` | Godeps/_workspace/src/gopkg.in/yaml.v2/scannerc.go:1274-1336 | For a simple key, KEY, and the start of a mapping if one opens, are put directly in front of the token that the key was saved for, never before a consumed one, and VALUE at the end |
| `TokenScanner.Scanner.FetchBlockIndicator` | Godeps/_workspace/src/gopkg.in/yaml.v2/scannerc.go:1193-1271 | Dashes and question marks: the block that opens and the token are appended; it fails if and only if a key is not allowed there or a required one is given up |
| `TokenScanner.Scanner.FetchFlowEnd` | Godeps/_workspace/src/gopkg.in/yaml.v2/scannerc.go:1136-1165 | Closing brackets are appended and leave a flow level, if there is one; one candidate per level is kept, also at level 0 |
| `TokenScanner.Scanner.ProduceKey` | Godeps/_workspace/src/gopkg.in/yaml.v2/scannerc.go:1105-1133 | Tokens that may begin a key are noted and appended; the only panic is the one of the candidate |
| `TokenScanner.Scanner.Dispatch` | Godeps/_workspace/src/gopkg.in/yaml.v2/scannerc.go:665-838 | Whatever comes next in the text, its token is spelled out once, behind those before it, the invariant is kept, and position, indentation, flow level and candidates become what the layout says, or it is refused or panics exactly where the layout says |
| `TokenScanner.Scanner.FetchMore` | Godeps/_workspace/src/gopkg.in/yaml.v2/scannerc.go:626-662 | Afterwards no candidate stands for the token at the head; the loop ends, and STREAM-END is fetched once |
| `TokenScanner.Scanner.Skip` | Godeps/_workspace/src/gopkg.in/yaml.v2/parserc.go:54-59 | Consuming a token changes neither the order of tokens nor the candidates |
| `TokenScanner.Scanner.Run` | Godeps/_workspace/src/gopkg.in/yaml.v2/scannerc.go:626-838 | For every text: the scanner panics if and only if the text meets the predicate on layouts; a run without error hands out exactly the tokens that `ScannerTokens.TokensOfText` reads off the text, each at its mark, with every KEY, block start and block end in its place; but for those that the scanner adds they are the tokens of the text, explicit KEYs included, in order, none lost or doubled, STREAM-START first and one STREAM-END last; no block is closed that is not open, and outside flow collections all are closed |
| `ScannerTokens.StepKeepsOutlook` | Godeps/_workspace/src/gopkg.in/yaml.v2/scannerc.go:626-838 | Tokens that are there, and those still to come, are together the same list before and after every lexeme, although KEY and block starts are put in front of earlier tokens later on |
| `ScannerTokens.KeyInserted` | Godeps/_workspace/src/gopkg.in/yaml.v2/scannerc.go:1274-1296 | Putting KEY, and a block start if one opens, in front of the numbered token is choosing the token with that mark as a key |
| `ScannerTokens.ChosenNear` | Godeps/_workspace/src/gopkg.in/yaml.v2/scannerc.go:842-863 | A token that becomes a simple key is on the line of its VALUE and at most 1024 characters in front of it |
| `TokenScanner.CrookedPanics` | Godeps/_workspace/src/gopkg.in/yaml.v2/scannerc.go:867-878 | A concrete text meets that predicate: a quoted value that ends on the next line left of its key's column, and a token behind it at that column |
| `TokenScanner.PanicRun` | Godeps/_workspace/src/gopkg.in/yaml.v2/scannerc.go:867-878 | Every new scanner with that text in front of it runs into the panic marked as unreachable |
| `AliasExpansion.EvalCovered` | Godeps/_workspace/src/gopkg.in/yaml.v2/decode.go:277-299 | If one way of following aliases expands every alias that another one does, it expands every node that the other one does, to the same value |
| `AliasExpansion.ActiveCovered` | Godeps/_workspace/src/gopkg.in/yaml.v2/decode.go:310-322 | With the set of active aliases no alias is followed twice along a branch |
| `AliasExpansion.FuelCovered` | Godeps/_workspace/src/gopkg.in/yaml.v2/decode.go:310-322 | A node with a finite expansion is never refused as containing itself |
| `AliasExpansion.ExpansionExact` | Godeps/_workspace/src/gopkg.in/yaml.v2/decode.go:277-322 | For all anchors, decoding succeeds if and only if the node has a finite expansion, merges included, and gives that expansion; what it is, is `AliasMeaning.DecodesMeaning` |
| `AliasMeaning.DecodesMeaning` | Godeps/_workspace/src/gopkg.in/yaml.v2/decode.go:277-322 | For all anchors, nodes and values: decoding gives the value if and only if the node means it, by a relation on indices: an alias means what its node does, item i of a list child i, entry i of a mapping the key of child 2i and the value of child 2i + 1, a merge the entries of its mappings from the last to the first |
| `AliasMeaning.StandsExact` | Godeps/_workspace/src/gopkg.in/yaml.v2/decode.go:277-322 | The same for expansions of a given depth |
| `AliasMeaning.PlainMapping` | Godeps/_workspace/src/gopkg.in/yaml.v2/decode.go:510-570 | A mapping without merges has one entry per pair, keys and values in their places |
| `AliasMeaning.LastPairSupplies` | Godeps/_workspace/src/gopkg.in/yaml.v2/decode.go:526-570 | The value of a key comes from the last pair or merge that has it |
| `AliasMeaning.KeyPrevails` | Godeps/_workspace/src/gopkg.in/yaml.v2/decode.go:526-570 | What a pair sets for a key is what the mapping has if and only if the last pair or merge behind it that has the key, if there is one, sets the same |
| `AliasMeaning.MergeBehindKey` | Godeps/_workspace/src/gopkg.in/yaml.v2/decode.go:526-570 | So `{a: b, <<: {a: c}}` gives `c`, where the merge key type promises that an own key prevails |
| `AliasMeaning.EarliestMerged` | Godeps/_workspace/src/gopkg.in/yaml.v2/decode.go:652-679 | Among the mappings of a merge list, the earliest one that has a key supplies it |
| `AliasMeaning.NoneMerged` | Godeps/_workspace/src/gopkg.in/yaml.v2/decode.go:652-679 | A key that none of them has is not merged |
| `AliasMeaning.LastAnchor` | Godeps/_workspace/src/gopkg.in/yaml.v2/decode.go:99-103 | A name stands for the node of its last anchor in the document |
| `AliasMeaning.AnchorInFront` | Godeps/_workspace/src/gopkg.in/yaml.v2/decode.go:310-322 | An alias stands for the node of the nearest anchor in front of it if and only if the last anchor of its name behind it, if there is one, has the same node |
| `AliasMeaning.AnchorBehindAlias` | Godeps/_workspace/src/gopkg.in/yaml.v2/decode.go:99-103 | So `[&x a, *x, &x b]` gives `[a, b, b]`, where an alias promises the anchor in front of it |
| `AliasDecoder.Decoder.Unmarshal` | Godeps/_workspace/src/gopkg.in/yaml.v2/decode.go:277-299 | Decoding ends on cyclic documents; from the top of a document it gives a value if and only if the node means it, and restores the active aliases unless it fails |
| `AliasDecoder.Decoder.Alias` | Godeps/_workspace/src/gopkg.in/yaml.v2/decode.go:310-322 | Unknown and active aliases are refused; others are active exactly while their node is decoded |
| `AliasDecoder.Decoder.Sequence` | Godeps/_workspace/src/gopkg.in/yaml.v2/decode.go:478-508 | All items, in order |
| `AliasDecoder.Decoder.Mapping` | Godeps/_workspace/src/gopkg.in/yaml.v2/decode.go:510-570 | All entries, in order, with merges in place; collections are refused as keys; from the top of a document the value is the one that the mapping means |
| `AliasDecoder.Decoder.Merge` | Godeps/_workspace/src/gopkg.in/yaml.v2/decode.go:652-679 | A mapping or an alias of one, or a list of these from the last to the first; anything else is refused |
| `RoutePatterns.MatchParam` | Godeps/_workspace/src/github.com/gin-gonic/gin/tree.go:393-431 | A parameter takes the longest run without a slash |
| `RoutePatterns.MatchFills` | Godeps/_workspace/src/github.com/gin-gonic/gin/tree.go:364-483 | A path matches a pattern with these bindings if and only if they have the names of its wildcards in order, with values that fit, and filling them in gives the path |
| `RouteTree.LookupSound` | Godeps/_workspace/src/github.com/gin-gonic/gin/tree.go:364-483 | What the walk finds is a registered route that matches the path, with its bindings |
| `RouteTree.LookupComplete` | Godeps/_workspace/src/github.com/gin-gonic/gin/tree.go:364-483 | A registered route that matches is found, with exactly its bindings |
| `RouteTree.AtMostOneMatch` | Godeps/_workspace/src/github.com/gin-gonic/gin/tree.go:364-483 | No path matches two routes of a tree |
| `RouteInsert.FrontPosition` | Godeps/_workspace/src/github.com/gin-gonic/gin/tree.go:97-120 | The place in front of all siblings with fewer routes |
| `RouteInsert.InsertShape` | Godeps/_workspace/src/github.com/gin-gonic/gin/tree.go:246-357 | The new nodes for a pattern are well-formed |
| `RouteInsert.WalkShape` | Godeps/_workspace/src/github.com/gin-gonic/gin/tree.go:124-244 | An accepted pattern leaves the tree well-formed: edges split, indices lead to their children and are distinct, wildcards are alone |
| `RouteContents.WalkHas` | Godeps/_workspace/src/github.com/gin-gonic/gin/tree.go:124-244 | Afterwards the tree holds the same routes and the new one, and no others |
| `RouteContents.WalkFresh` | Godeps/_workspace/src/github.com/gin-gonic/gin/tree.go:231-236 | A pattern that is already there is refused |
| `RouteCounts.WalkAccounts` | Godeps/_workspace/src/github.com/gin-gonic/gin/tree.go:124-244 | Every priority is the number of routes below, siblings are in order of priority, and every parameter count below the root is the largest number of wildcards on a path below |
| `RouteStars.InsertStars` | Godeps/_workspace/src/github.com/gin-gonic/gin/tree.go:246-357 | New nodes are made only for patterns with a star in the last segment |
| `RouteStars.WalkStars` | Godeps/_workspace/src/github.com/gin-gonic/gin/tree.go:124-244 | An accepted pattern has its star last, or goes on behind a catch-all of the tree |
| `RouteStars.StarCounterexample` | Godeps/_workspace/src/github.com/gin-gonic/gin/tree.go:175-200 | With `/*x` registered, `/*x/y` is accepted |
| `RouteConflicts.InsertSound` | Godeps/_workspace/src/github.com/gin-gonic/gin/tree.go:246-357 | New nodes are made exactly for well-formed patterns: wildcards have names, one to a segment, and a star comes behind a slash in the last segment |
| `RouteConflicts.WalkAccepts` | Godeps/_workspace/src/github.com/gin-gonic/gin/tree.go:124-244 | The walk accepts a pattern at a node if and only if it is well formed and clashes with no route below, whatever the shape of the tree |
| `RouteConflicts.ConflictsSymmetric` | Godeps/_workspace/src/github.com/gin-gonic/gin/tree.go:124-244 | Which of two conflicting patterns is there first does not matter |
| `Router.AcceptedStars` | Godeps/_workspace/src/github.com/gin-gonic/gin/tree.go:124-244 | An accepted pattern has its star last if and only if it does not go on behind a registered catch-all |
| `Router.Accepted` | Godeps/_workspace/src/github.com/gin-gonic/gin/tree.go:124-357 | The same for the whole tree: accepted if and only if well formed and in conflict with no registered pattern |
| `Router.LookupIsScan` | Godeps/_workspace/src/github.com/gin-gonic/gin/tree.go:364-483 | For every path, the walk down the tree gives what trying the registered patterns one after the other gives |
| `Router.RoutesDisjoint` | Godeps/_workspace/src/github.com/gin-gonic/gin/tree.go:364-483 | No path belongs to two registered routes |
| `Router.Tree.Add` | Godeps/_workspace/src/github.com/gin-gonic/gin/tree.go:124-244 | A registration is accepted if and only if the pattern is well formed and conflicts with no registered one, said on the patterns alone; it adds exactly its route, to any tree, and keeps all its invariants; a refused one changes nothing |
| `Router.RegisterAll` | Godeps/_workspace/src/github.com/gin-gonic/gin/tree.go:124-244 | A list of routes is accepted as a whole if and only if all its patterns are well formed and no two of them conflict |
| `Router.AnyOrder` | Godeps/_workspace/src/github.com/gin-gonic/gin/tree.go:124-244 | The order of registration does not matter |
| `Router.Tree.GetValue` | Godeps/_workspace/src/github.com/gin-gonic/gin/tree.go:364-483 | Handlers and parameters are those of the first matching route in the list of routes |
| `Router.Descent` | Godeps/_workspace/src/github.com/gin-gonic/gin/tree.go:364-483 | The loop of the lookup; a parameter always fits into the slice, and no earlier one is lost when the slice is replaced |
| `Router.IncrementChildPrio` | Godeps/_workspace/src/github.com/gin-gonic/gin/tree.go:97-120 | In place: the child moves in front of those with fewer routes, the others keep their order, and the index string follows |
| `CleanPath.NamesProper` | Godeps/_workspace/src/github.com/gin-gonic/gin/path.go:10-20 | No empty, `.` or `..` element is left |
| `CleanPath.NamesByRules` | Godeps/_workspace/src/github.com/gin-gonic/gin/path.go:10-20 | The names that are left are the one list without empty, `.` or `..` elements to which the four rules of the documentation, applied in any order, lead |
| `CleanPath.RulesKeep` | Godeps/_workspace/src/github.com/gin-gonic/gin/path.go:10-20 | No application of a rule changes the result |
| `CleanPath.RulesEnd` | Godeps/_workspace/src/github.com/gin-gonic/gin/path.go:10-20 | No rule applies any more if and only if every element is proper; every application makes the list shorter |
| `CleanPath.CleanIdempotent` | Godeps/_workspace/src/github.com/gin-gonic/gin/path.go:10-20 | Cleaning twice is cleaning once, for every path |
| `CleanPath.UnrootedExact` | Godeps/_workspace/src/github.com/gin-gonic/gin/path.go:34-44 | A path without root is cleaned like the one with a root in front, if and only if it is not a single letter and a slash, which loses the slash |
| `CleanPath.UnrootedCounterexample` | Godeps/_workspace/src/github.com/gin-gonic/gin/path.go:34-44 | `a/` loses its slash and `/a/` does not |
| `CleanPath.BufApp` | Godeps/_workspace/src/github.com/gin-gonic/gin/path.go:113-123 | The lazily made buffer and the input give the same output, one character longer |
| `CleanPath.Backtrack` | Godeps/_workspace/src/github.com/gin-gonic/gin/path.go:64-81 | Back to the slash in front of the last name, and no further |
| `CleanPath.CleanPath` | Godeps/_workspace/src/github.com/gin-gonic/gin/path.go:21-110 | In one pass, with all indices in range: split at the slashes, resolved on a stack, joined again, for every path, rooted or not |
| `Middleware.ChainInOrder` | Godeps/_workspace/src/github.com/gin-gonic/gin/context.go:93-112 | For handlers that are arbitrary programs of Next and Abort: those that start are the first ones of the chain, in order and once each, all of them if none aborts, and none starts after an Abort |
| `Middleware.ChainReach` | Godeps/_workspace/src/github.com/gin-gonic/gin/context.go:93-112 | Which handlers start, read off the programs: up to the first one that aborts before it has passed control on |
| `Middleware.ChainIndex` | Godeps/_workspace/src/github.com/gin-gonic/gin/context.go:93-112 | For every chain of any programs of Next and Abort, shorter than 63: where the index ends, and the largest value it has on the way, are those of a word read off the chain; it leaves eight bits if and only if the peak of that word exceeds 127 |
| `Middleware.NoAbortIndex` | Godeps/_workspace/src/github.com/gin-gonic/gin/context.go:93-99 | Without an Abort the index ends at the length of the chain plus the number of calls of Next in its handlers, and is never larger |
| `Middleware.NextSmall` | Godeps/_workspace/src/github.com/gin-gonic/gin/context.go:93-99 | If no handler calls Next twice the index never exceeds 126, Aborts or not |
| `Middleware.RepeatedNext` | Godeps/_workspace/src/github.com/gin-gonic/gin/context.go:93-99 | A single handler that calls Next 127 times takes the index to 128 |
| `Middleware.AbortedRepeat` | Godeps/_workspace/src/github.com/gin-gonic/gin/context.go:93-112 | With an Abort behind 128 calls the index ends at 64, although it has been at 128 |
| `Middleware.CombineHandlers` | Godeps/_workspace/src/github.com/gin-gonic/gin/routergroup.go:195-204 | The two lists one behind the other, refused from 63 handlers on |
| `Middleware.Context.CallNextHandlers` | Godeps/_workspace/src/github.com/gin-gonic/gin/context.go:93-99 | With an eight-bit index and reentrant handlers, the run is the one over unbounded integers, for every chain whose word stays within eight bits |
| `Middleware.Context.AbortNow` | Godeps/_workspace/src/github.com/gin-gonic/gin/context.go:110-112 | The index goes beyond every chain |
| `TokenBucket.Bucket.AdjustTo` | Godeps/_workspace/src/github.com/juju/ratelimit/ratelimit.go:233-245 | The refill brings the bucket to the balance due at the tick, or to its capacity if that is less; the tick is moved unless the bucket was full |
| `TokenBucket.Bucket.TakeMaxDuration` | Godeps/_workspace/src/github.com/juju/ratelimit/ratelimit.go:205-229 | Wait and success of a take; the wait is the shortest one after which enough is there |
| `TokenBucket.Bucket.TakeNow` | Godeps/_workspace/src/github.com/juju/ratelimit/ratelimit.go:156-172 | Grants the smaller of what is asked for and what is due, and nothing from an empty bucket |
| `TokenBucket.RefillExact` | Godeps/_workspace/src/github.com/juju/ratelimit/ratelimit.go:233-245 | A refill loses nothing: all ticks since the last one are credited, up to the capacity |
| `TokenBucket.AvailableExact` | Godeps/_workspace/src/github.com/juju/ratelimit/ratelimit.go:156-172 | What is granted at once is the smaller of the request and what is due, never negative, and is deducted |
| `TokenBucket.TakeExact` | Godeps/_workspace/src/github.com/juju/ratelimit/ratelimit.go:205-229 | A take succeeds if and only if within the allowed wait enough is there, and waits no longer than needed |
| `TokenBucket.RunBalances` | Godeps/_workspace/src/github.com/juju/ratelimit/ratelimit.go:156-245 | Over any run in time order: granted, left and spilt over the brim together are exactly the quantum of every credited tick |
| `TokenBucket.NothingLost` | Godeps/_workspace/src/github.com/juju/ratelimit/ratelimit.go:156-245 | If the balance does not reach the capacity by the last call, nothing is spilt, and the balance at any tick is lower by exactly what was granted |
| `TokenBucket.TakeWaits` | Godeps/_workspace/src/github.com/juju/ratelimit/ratelimit.go:205-229 | After the wait the balance is not negative; the wait is positive if and only if tokens were short, at most the given one, and, if the books are up to date, one tick less is too short |
| `TokenBucket.RefusedTakes` | Godeps/_workspace/src/github.com/juju/ratelimit/ratelimit.go:205-229 | A refused take deducts nothing, and only a longer wait would have been accepted |
| `TokenBucket.RunConserves` | Godeps/_workspace/src/github.com/juju/ratelimit/ratelimit.go:156-245 | Over any run in time order, what is granted and what is left grow by no more than the credited ticks, never above the capacity |
| `TokenBucket.GrantedBound` | Godeps/_workspace/src/github.com/juju/ratelimit/ratelimit.go:156-245 | From the start, no more than the capacity and the quantum of every tick is granted, by the tick at which all of it is there |
| `TokenBucket.WindowBound` | Godeps/_workspace/src/github.com/juju/ratelimit/ratelimit.go:156-245 | In any window in which no single request exceeds the capacity, at most twice the capacity and the quantum of its ticks is granted |
| `TokenBucket.WindowExact` | Godeps/_workspace/src/github.com/juju/ratelimit/ratelimit.go:156-245 | For requests of any size that bound holds for every run from a given state if and only if the bucket is not full, or has not been full for longer than it takes to fill it |
| `TokenBucket.WindowCounterexample` | Godeps/_workspace/src/github.com/juju/ratelimit/ratelimit.go:233-245 | One larger request after a full spell, and that bound fails |
| `TokenBucket.NextQuantum` | Godeps/_workspace/src/github.com/juju/ratelimit/ratelimit.go:70-76 | The quanta that are tried grow strictly, by about a tenth |
| `Semver.ParsePrints` | Godeps/_workspace/src/github.com/blang/semver/semver.go:204-290 | Every accepted string prints back as it was |
| `Semver.PrintParses` | Godeps/_workspace/src/github.com/blang/semver/semver.go:33-62 | A version that passes the source's validation parses back to itself if and only if none of its pre-release words is all digits |
| `Semver.ThreeNumbers` | Godeps/_workspace/src/github.com/blang/semver/semver.go:204-290 | Three numbers of up to 64 bits with dots between them parse to major, minor and patch, in this order |
| `Semver.PrintCounterexample` | Godeps/_workspace/src/github.com/blang/semver/semver.go:33-62 | The word `1` passes validation and comes back as a number |
| `Semver.ParsedIsValid` | Godeps/_workspace/src/github.com/blang/semver/semver.go:165-189 | What parses passes validation, and has no such word |
| `SemverOrder.CompareOrder` | Godeps/_workspace/src/github.com/blang/semver/semver.go:113-162 | Comparison is antisymmetric, and 0 if and only if all but the build metadata agrees; which way round it goes is `SemverOrder.CompareDirection` |
| `SemverOrder.CompareDirection` | Godeps/_workspace/src/github.com/blang/semver/semver.go:113-162 | -1 if and only if the first version has the lower precedence of section 11 of Semantic Versioning 2.0.0, 1 if and only if the second has: numbers first, a pre-release below the release, parts by value or by characters, numbers below words, a beginning below the whole |
| `SemverOrder.CompareTransitive` | Godeps/_workspace/src/github.com/blang/semver/semver.go:113-162 | Comparison is transitive |
| `SemverOrder.CompareVersions` | Godeps/_workspace/src/github.com/blang/semver/semver.go:113-162 | The loop gives -1 if and only if the first version precedes the second, 1 if and only if the second precedes the first |
| `SemverOrder.Print` | Godeps/_workspace/src/github.com/blang/semver/semver.go:33-62 | The loops over pre-release and build parts print the version |
| `SemverOrder.ParseParts` | Godeps/_workspace/src/github.com/blang/semver/semver.go:269-276 | The loop over the parts of a pre-release |
| `ImageTags.TagPrints` | pkg/page/algorithm.go:104-137 | An accepted image tag prints back unchanged, whatever its prefix |
| `ImageTags.TagsExact` | pkg/page/algorithm.go:104-128 | A tag is accepted if and only if a version stands at its start, behind a `v` in front, or behind its first hyphen, and the prefix is the shortest of these |
| `ImageTags.VersionsParse` | Godeps/_workspace/src/github.com/blang/semver/semver.go:204-290 | The accepted strings are the texts of the valid versions whose words are words |
| `ImageTags.TagsDistinct` | pkg/page/algorithm.go:104-137 | Different tags stay different |
| `ImageTags.LessExact` | pkg/page/algorithm.go:34-39 | One tag is less if its version precedes, or neither does and its prefix comes first by characters |
| `ImageTags.LessOrder` | pkg/page/algorithm.go:34-39 | The order of tags is a strict weak order |
| `ImageTags.SortedNeighbours` | pkg/page/algorithm.go:34-39 | What a sort promises of neighbours holds of any two items |
| `ImageTags.Search` | pkg/page/algorithm.go:139-146 | The first item that prints as the given tag, or -1 if there is none |
| `ImageTags.Reverse` | pkg/page/algorithm.go:148-152 | In place, back to front |
| `ImageTags.Upgrades` | main.go:1042-1058 | Everything behind the first place of the current tag in the sorted list, none of it less, and the 50 nearest of these |
| `ImageTags.Downgrades` | main.go:1047-1058 | Everything in front of the first place of the current tag, none of it greater, nearest first, and the 50 nearest of these |
| `ImageTags.Choices` | main.go:1042-1058 | For one sorted list both searches find the same place; if the tag is there, the downgrades turned round, the current tag and the upgrades, before the limit, are the whole list; if not, either list is the whole |
| `ImageTags.CurrentIsFound` | main.go:1042-1054 | A current tag that is listed and parses is found |
| `Pods.KeysDistinct` | main.go:1228-1229 | Different containers have different annotations |
| `Pods.StopStops` | main.go:1216-1239 | Exactly the checked containers run the pause image afterwards; the others keep theirs |
| `Pods.StartStarts` | main.go:1241-1264 | Exactly the checked containers run their own image afterwards |
| `Pods.RunKeeps` | main.go:1150-1171 | Over any run of stops, starts and restarts with any masks, every container keeps the image that it has or will have again, and every stopped one can be started |
| `Pods.PerformExact` | main.go:1150-1171 | After one action every checked container is paused if it was to stop, and runs its own image if it was to start or to start again; the others run what they ran |
| `Pods.SetSets` | main.go:1196-1214 | Setting images changes the effective image exactly of the containers that are named |
| `Pods.PodObject.StopContainers` | main.go:1216-1239 | The loop that stops containers |
| `Pods.PodObject.StartContainers` | main.go:1241-1264 | The loop that starts containers |
| `Pods.PodObject.SetImages` | main.go:1196-1214 | The loop that sets images |

## Left out

- Router.Tree.Add: the tree is a value, and a changed node a new value in its parent; the rewriting of nodes through pointers, and the half-changed tree after a panic, are not captured. Patterns with 255 wildcards or more, priorities beyond 32 bits, and patterns that go on behind a registered catch-all are outside its precondition.
- Router.Tree.GetValue: does not give the trailing-slash recommendation, which is only a hint to redirect.
- TokenScanner.Scanner.Run: the lexemes of the text are given; how the characters of plain and block scalars, tags, anchors and directives are recognised is not modelled. A plain scalar that would end in the middle of a line at or left of the indentation of its block, which no text has, is refused.
- QuotedText.QuotedRoundTrip: needs an indentation of at least one, which the emitter has for every scalar (`YamlEmitter.Emitter.EmitScalar`); octets past the end of the text read as NUL.
- QuotedScanner.Scanner.ScanFlowScalar: double-quoted scalars only; token marks are not kept, except for the column.
- Reader.Buffers.UpdateBuffer: the handler makes progress, as the source needs it to; error offsets are not kept.
- YamlEmitter.Emitter.Emit: the text that is written is abstracted; only its structure, the checks on anchors, tags and directives, and the indentation are modelled.
- YamlBuilder.Builder.Document: nodes are values, so the sharing of a node between the tree and its anchor is not captured; the anchor has the same value.
- AliasDecoder.Decoder.Unmarshal: decodes into generic lists and mappings; reflection, the resolution of scalars to Go types, custom unmarshalers and partial failures by type are not modelled. A mapping is the list of its assignments.
- Middleware.Context.CallNextHandlers: handlers are programs of Next and Abort; their other effects do not matter to the order.
- ImageTags.Upgrades: sorting is taken as given; any list whose neighbours are in order will do.
- Plain, literal, folded and single-quoted scalars, in the scanner's text level and in the emitter: they would repeat the double-quoted case without its escapes.
- Case-insensitive lookup of paths: a recommendation that depends on Unicode case folding.
- `NewBucketWithRate`: floating point, except for the growth of the quanta it tries.
- The HTTP handlers, pages, Kubernetes and registry clients of the console: plumbing around the modelled steps. Reading and updating a pod is one value.
- Locks and pools: each method of the source is one critical section and is one step here.
- 64-bit overflow of tokens and ticks, and clocks that run backwards.
