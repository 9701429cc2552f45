# graphical-mind-map, modelled in Dafny

graphical-mind-map is an AI-assisted mind map. The user types a prompt into a
node of a graph. A language model answers with a list of typed records: code,
information, task, decision or error. The front end adds each record as a new
child node, joined to its parent by an edge, and animates the layout of the tree.
A Python back end indexes PDF papers and ChatGPT conversations in OpenSearch. It
answers questions over them with numbered, coloured references, and is driven
from a command-line loop.

This project models the logic of that system and proves properties of the model.
Everything else is treated as an input or a parameter: the network, the language
model, the search engine and the files.

The front end:

- `NodeStore.Store` is the store that holds the two sequences `nodes` and
  `edges`. Each write replaces one of them.
- `Schema` is the validator for generated records. It is a closed union of five
  shapes and rejects the rest.
- `Context` extracts the context an expanding node sends with its request.
  `Expansion` is the commit step that turns N records into N child nodes and N
  edges. The prompt, decision, information and task variants are each modelled
  as written.
- `Layout` is the layout hook. It covers the parent rule, the from/to
  transitions, the 300-unit interpolation, the snap to the targets and the
  first-pass flag.
- `AiRoute` is the system prompt and the message list of the generation
  endpoint.

The back end:

- `Conversation` flattens a conversation export and cuts its text into
  fixed-width chunks.
- `PdfParsing` maps a loader's chunks to paragraph chunks. It also models the
  older page-by-page paragraph grouping.
- `QaService` builds the context, the reference legend and the `[RefN]`
  colouring of an answer.
- `Indexing` builds the bulk actions with their deterministic ids, and reads the
  checksum aggregation.
- `Cli` covers command parsing, dispatch, the read loop and its history, the
  new/skipped split and counters of folder ingestion, and the grouped settings
  listing.

Shared modules hold the rest:

- `Common`: `Option`, `Result` and the Python exceptions.
- `Json`: parsed JSON values.
- `Graph`: nodes, edges and positions.
- `Strings`: joins, splits, decimal printing and the two languages' white space.
- `Sorting`: Python's `sorted` and its order on strings.

Where the source updates state in place, the model does the same:

- The store is a class with `seq` fields.
- The layout hook is a class holding the `initial` ref and the timers.
- The PDF parser, the decision node and the CLI are classes too. Their methods
  run the source's loops.
- Each loop is a method proved against a specification function. Lemmas about
  that function state what the source promises.

Where the code and its documentation disagree, the model follows the code:

- The zod object schemas strip unknown keys instead of rejecting them.
- The context filter of an expanding node keeps its freshly generated children.
  Their ids come from `generateId` and do not start with `${id}-`. The edges
  into them stay in the context too: the filter tests an edge's target, which
  is the child's fresh id. Only the edge's own id carries the `${id}-` prefix,
  and the filter never looks at it.
- One invalid record rejects the whole generated batch. The response schema
  is an array of a union, and zod rejects the array when any element fails;
  the design says the invalid record is dropped (`Schema.ValidateAll`,
  `Schema.ParseResponseIff`).

One disagreement is a bug in the code, and there the model follows the
documented intent. The layout hook's `initial` ref is meant to fit the view
once, after the first layout (frontend/src/hooks/use-layout.tsx:43-44).
`Layout.LayoutEffect.Tick` applies that rule. The test at
frontend/src/hooks/use-layout.tsx:115 instead calls `fitView` on every pass
after the first. Only `Layout.FitsViewAsWritten` and `Layout.FitCallsAsWritten`
model it (see Findings).

## Model

| member | source | states |
|---|---|---|
| Graph.FindNode | frontend/src/store/node-store.ts:12 | the result is absent exactly when no node carries the id; otherwise it is the first node that does |
| Graph.ParentOf | frontend/src/hooks/use-layout.tsx:28 | the parent is absent exactly when no edge ends at the node; otherwise it is the source of the first edge that does |
| Graph.ParentOfUnique | frontend/src/hooks/use-layout.tsx:26-28 | when every node has at most one incoming edge, the parent rule returns the source of that edge |
| NodeStore.Store.constructor | frontend/src/store/node-store.ts:9-11 | the store starts from the seed nodes and edges |
| NodeStore.Store.GetNode | frontend/src/store/node-store.ts:12 | absent exactly when no stored node has the id; otherwise the first stored node with it |
| NodeStore.Store.GetNodes | frontend/src/store/node-store.ts:13 | returns the stored node sequence |
| NodeStore.Store.GetEdges | frontend/src/store/node-store.ts:14 | returns the stored edge sequence |
| NodeStore.Store.OnNodesChange | frontend/src/store/node-store.ts:15-19 | the nodes become the library's change function applied to the old nodes; the edges do not change; one write is logged |
| NodeStore.Store.OnEdgesChange | frontend/src/store/node-store.ts:20-24 | the edges become the library's change function applied to the old edges; the nodes do not change |
| NodeStore.Store.OnConnect | frontend/src/store/node-store.ts:25-29 | the edges become `addEdge` of the connection and the old edges; the nodes do not change |
| NodeStore.Store.SetNodes | frontend/src/store/node-store.ts:30-32 | the nodes are replaced wholesale, the edges are kept, and the write is appended to the write log |
| NodeStore.Store.SetEdges | frontend/src/store/node-store.ts:33-35 | the edges are replaced wholesale, the nodes are kept, and the write is appended to the write log |
| Layout.Stratify | frontend/src/hooks/use-layout.tsx:24-30 | one hierarchy entry per node, in order, whose parent is the source of the first edge into that node |
| Layout.LayoutNodes | frontend/src/hooks/use-layout.tsx:18-22 | no nodes give no laid-out nodes |
| Layout.LayoutKeepsFields | frontend/src/hooks/use-layout.tsx:37-39 | every laid-out node is a stored node with only its position replaced by the placement's coordinates |
| Layout.Transitions | frontend/src/hooks/use-layout.tsx:67-76 | one transition per laid-out node, in order, going from its start position to its target |
| Layout.StartPositionCases | frontend/src/hooks/use-layout.tsx:71 | a node already in the store starts at its stored position; a node not yet stored starts at its target |
| Layout.InterpolateEnds | frontend/src/hooks/use-layout.tsx:80-89 | the interpolation is at the start position at time 0 and at the target at time 300 |
| Layout.InterpolateBetween | frontend/src/hooks/use-layout.tsx:80-89 | while the animation runs, each coordinate lies between its start and its target |
| Layout.LastFrameOvershoots | frontend/src/hooks/use-layout.tsx:80-96 | the frame written on the final tick (elapsed past 300) puts a moving node beyond its target |
| Layout.Frame | frontend/src/hooks/use-layout.tsx:82-91 | each node of a tick's frame is the laid-out node at its interpolated position |
| Layout.FinalFrame | frontend/src/hooks/use-layout.tsx:99-107 | each node of the final frame is the laid-out node at exactly its target |
| Layout.FinalFrameIsLayout | frontend/src/hooks/use-layout.tsx:99-109 | the final frame equals the laid-out node list |
| Layout.FirstFrameAtStart | frontend/src/hooks/use-layout.tsx:67-93 | the frame at time 0 shows every node at its start position |
| Layout.FitCallsAsWritten | frontend/src/hooks/use-layout.tsx:114-118 | as written, `fitView` is skipped on the first completed pass and called on every later one |
| Layout.FitCallsIntended | frontend/src/hooks/use-layout.tsx:43-45 | with the corrected rule, `fitView` is called exactly once, on the first completed pass |
| Layout.LayoutEffect.constructor | frontend/src/hooks/use-layout.tsx:45 | the `initial` flag starts true, with no timers and no transitions |
| Layout.LayoutEffect.Effect | frontend/src/hooks/use-layout.tsx:55-125 | the previous timer is stopped and a new one runs; the transitions are computed from the store's nodes and edges; the store is not written |
| Layout.LayoutEffect.Tick | frontend/src/hooks/use-layout.tsx:79-120 | up to time 300 one interpolated frame is written; past 300 the final frame follows and the timer stops; the corrected `fitView` rule is applied and `initial` becomes false; the edges never change |
| Context.ContextNodes | frontend/src/components/nodes/prompt-node.tsx:71-78 | at most as many entries as stored nodes; each entry is the projection of a stored node whose id does not start with `${id}-` |
| Context.ContextEdges | frontend/src/components/nodes/prompt-node.tsx:80-87 | at most as many entries as stored edges; each entry is the projection of a stored edge whose target does not start with `${id}-` |
| Context.ContextNodesAppend | frontend/src/components/nodes/prompt-node.tsx:71-78 | the node filter distributes over concatenation, so the kept nodes keep their order |
| Context.ContextEdgesAppend | frontend/src/components/nodes/prompt-node.tsx:80-87 | the edge filter distributes over concatenation |
| Context.ContextNodesSingle | frontend/src/components/nodes/prompt-node.tsx:73 | a single node is dropped exactly when its id is under the prefix |
| Context.ContextEdgesSingle | frontend/src/components/nodes/prompt-node.tsx:82 | a single edge is dropped exactly when its target is under the prefix |
| Context.ContextNodesKeeps | frontend/src/components/nodes/prompt-node.tsx:71-78 | every stored node outside the prefix appears, projected, in the context |
| Context.SelfKept | frontend/src/components/nodes/decision-node.tsx:87-94 | the expanding node is never under its own prefix, so it is always in its own context |
| Context.ExpansionRequest | frontend/src/components/nodes/decision-node.tsx:105-116 | the request carries one user message, the filtered nodes and edges, and the node's id and kind |
| Context.PromptSubmit | frontend/src/components/nodes/prompt-node.tsx:68-96 | nothing is sent exactly when the prompt is white space only; otherwise the untrimmed prompt goes out with the prompt node's context |
| Context.DecisionNode.constructor | frontend/src/components/nodes/decision-node.tsx:39-41 | the component starts with its question and options and no selected option |
| Context.DecisionNode.HandleSubmit | frontend/src/components/nodes/decision-node.tsx:84-117 | the chosen option becomes the selection; the request quotes the option and the question and carries the decision node's context |
| Expansion.Children | frontend/src/components/nodes/prompt-node.tsx:45-53 | one child per generated record, in record order, each with a fresh id, the record's type and data, placed at the origin |
| Expansion.ChildEdges | frontend/src/components/nodes/prompt-node.tsx:54-58 | one edge per fresh id, from the expanding node to the child, with id `${id}-${newId}` |
| Expansion.BuildChildren | frontend/src/components/nodes/prompt-node.tsx:41-62 | the loop builds exactly the children and the edges of the generated records |
| Expansion.PromptCommit | frontend/src/components/nodes/prompt-node.tsx:40-65 | the render-time nodes extended by the children are written first, then the extended edges; the children record their parent |
| Expansion.GuardedCommit | frontend/src/components/nodes/decision-node.tsx:47-81 | if the store no longer holds the expanding node nothing is written; otherwise the extended edges are written first, then the extended nodes |
| Expansion.DecisionCommit | frontend/src/components/nodes/decision-node.tsx:47-81 | the guarded commit: no write without the parent, and edges before nodes |
| Expansion.InformationCommit | frontend/src/components/nodes/information-node.tsx:46-80 | the same guard and write order as the decision node |
| Expansion.TaskCommit | frontend/src/components/nodes/task-node.tsx:46-70 | no guard; the children carry no parent reference; nodes are written before edges |
| Expansion.NodeIdsAppend | frontend/src/components/nodes/prompt-node.tsx:63 | the ids of a concatenation are the union of the ids of its parts |
| Expansion.ChildIds | frontend/src/components/nodes/prompt-node.tsx:46-48 | the children's ids are exactly the fresh ids |
| Expansion.ChildEdgeIdInjective | frontend/src/components/nodes/prompt-node.tsx:55 | two child edge ids of one parent coincide only when the child ids do |
| Expansion.CommitPreservesWellFormed | frontend/src/components/nodes/decision-node.tsx:51-80 | if the parent exists and the ids are fresh, a commit keeps ids unique, edges inside the graph, one parent per node and no cycle |
| Expansion.NodeIdsStayUnique | frontend/src/components/nodes/prompt-node.tsx:63 | fresh child ids keep the node ids pairwise distinct |
| Expansion.EdgeIdsStayUnique | frontend/src/components/nodes/prompt-node.tsx:64 | fresh child ids keep the edge ids pairwise distinct |
| Expansion.EndsStayInGraph | frontend/src/components/nodes/decision-node.tsx:70-80 | after the commit every edge joins two nodes of the graph and no node has two incoming edges |
| Expansion.RankExtends | frontend/src/components/nodes/decision-node.tsx:70-80 | the commit adds no cycle: one level below the parent is a valid depth for every child |
| Expansion.ChildrenUnderParent | frontend/src/hooks/use-layout.tsx:28 | by the layout's parent rule, each new child hangs under the expanding node |
| Expansion.UnguardedCommitDangles | frontend/src/components/nodes/task-node.tsx:46-70 | without the guard, a commit for a node that has disappeared leaves an edge whose source is not a node |
| Expansion.ContextNodesAllKept | frontend/src/components/nodes/prompt-node.tsx:71-78 | nodes none of which is under the prefix are all kept, in order |
| Expansion.ContextEdgesAllKept | frontend/src/components/nodes/prompt-node.tsx:80-87 | edges none of whose targets is under the prefix are all kept, in order |
| Expansion.ContextKeepsChildren | frontend/src/components/nodes/prompt-node.tsx:46-87 | the `${id}-` filter does not hide the children of an earlier expansion, nor the edges into them, unless a fresh id itself starts with `${id}-` |
| Schema.ParseDifficulty | frontend/src/types/schema.ts:47 | a difficulty is accepted exactly when it is the string "easy", "medium" or "hard", and it prints back to that string |
| Schema.AcceptedTypeIsGeneratable | frontend/src/types/schema.ts:20-75 | an accepted record names the type of its payload, which is one of the five generatable names and never "prompt" |
| Schema.LookupPair | frontend/src/types/schema.ts:29-32 | lookup in a two-field data object finds the later field first, then the earlier one |
| Schema.LookupTriple | frontend/src/types/schema.ts:36-40 | lookup in a three-field data object, field by field |
| Schema.DataLookups | frontend/src/types/schema.ts:27-64 | what each declared key holds in the data object of each of the five shapes |
| Schema.ValidateToRecord | frontend/src/types/schema.ts:11-75 | round trip: the canonical `{type, data}` record of every payload validates back to that payload |
| Schema.ValidateCanonical | frontend/src/types/schema.ts:27-64 | the canonical data object of a payload passes its own type's shape and gives the payload back |
| Schema.CanonicalCode | frontend/src/types/schema.ts:27-33 | round trip for the code shape |
| Schema.CanonicalInformation | frontend/src/types/schema.ts:34-41 | round trip for the information shape |
| Schema.CanonicalTask | frontend/src/types/schema.ts:42-49 | round trip for the task shape, the difficulty enum included |
| Schema.CanonicalDecision | frontend/src/types/schema.ts:58-64 | round trip for the decision shape |
| Schema.CanonicalError | frontend/src/types/schema.ts:11-17 | round trip for the error shape |
| Schema.ValidateIff | frontend/src/types/schema.ts:5-75 | a record is accepted as a payload exactly when it names the payload's type and agrees with its data on the declared keys, whatever else it holds |
| Schema.AcceptedIsWellShaped | frontend/src/types/schema.ts:5-8 | an accepted record is an object with a string type and an object as data |
| Schema.SameDeclared | frontend/src/types/schema.ts:27-64 | validation looks only at the declared keys: two data objects that agree on them validate alike |
| Schema.ValidatedDeclared | frontend/src/types/schema.ts:27-64 | a data object accepted as a payload agrees with the payload's canonical data on every declared key |
| Schema.StringArrayUnique | frontend/src/types/schema.ts:38-39 | a string array is determined by its strings |
| Schema.TypeIssues | frontend/src/types/schema.ts:77-96 | every issue is about a record whose type is outside the five names, carries the message with that type and index, and issues come in index order |
| Schema.TypeIssuesComplete | frontend/src/types/schema.ts:78-95 | every record whose type is outside the five names is reported |
| Schema.NoIssuesIff | frontend/src/types/schema.ts:77-96 | the refinement reports nothing exactly when every type is one of the five names |
| Schema.ValidateAll | frontend/src/types/schema.ts:70-75 | the array is accepted exactly when every element is, and then it gives each element's payload in order |
| Schema.TypeNames | frontend/src/types/schema.ts:88 | the type name of each parsed record, in order |
| Schema.ParseResponseIff | frontend/src/types/schema.ts:68-97 | a response parses exactly when its `nodes` field is an array of valid records, and then it gives their payloads in order; the refinement never rejects what the union accepted |
| Schema.NoIssuesForParsed | frontend/src/types/schema.ts:77-96 | the refinement reports nothing on records the union accepted |
| Schema.TypeNameGeneratable | frontend/src/types/schema.ts:80-88 | every payload's type name is one of the five names |
| AiRoute.NodeLines | frontend/src/app/api/ai/route.ts:30 | one prompt line `- type: JSON of data` per context node, in order |
| AiRoute.EdgeLines | frontend/src/app/api/ai/route.ts:33 | one prompt line `- source -> target` per context edge, in order |
| AiRoute.CurrentData | frontend/src/app/api/ai/route.ts:36 | absent exactly when no context node has the current id; otherwise the data of the first one that does |
| AiRoute.Indented | frontend/src/app/api/ai/route.ts:30-33 | a joined list block always takes at least one line of the prompt |
| AiRoute.JoinIndented | frontend/src/app/api/ai/route.ts:30-33 | the template's indentation lands on the first line of a joined block only |
| AiRoute.SystemPromptIsJoin | frontend/src/app/api/ai/route.ts:27-42 | the template literal is its lines joined by line breaks |
| AiRoute.TemplateJoin | frontend/src/app/api/ai/route.ts:27-42 | the template's shape, for arbitrary pieces, is a join of its lines |
| AiRoute.JoinBlankThen | frontend/src/app/api/ai/route.ts:31-32 | a blank line before a header joins to a line break then the header |
| AiRoute.JoinBlankThen2 | frontend/src/app/api/ai/route.ts:27-29 | the opening line break of the template followed by two lines |
| AiRoute.JoinCurrentBlock | frontend/src/app/api/ai/route.ts:34-37 | the current-node block joins to its two lines between blank lines |
| AiRoute.PromptLinesRoundTrip | frontend/src/app/api/ai/route.ts:27-42 | when no field holds a line break, splitting the prompt at line breaks gives back its lines: the node count, each node in order, the edge count, each edge in order, the current node, and the rules |
| AiRoute.PromptLinesUnbroken | frontend/src/app/api/ai/route.ts:27-42 | when no field holds a line break, no line of the prompt does |
| AiRoute.FixedLinesUnbroken | frontend/src/app/api/ai/route.ts:28-41 | the fixed preamble and rule lines hold no line break |
| AiRoute.UnbrokenAppend | frontend/src/app/api/ai/route.ts:27-42 | lines free of line breaks stay so under concatenation |
| AiRoute.NoBreakInNumber | frontend/src/app/api/ai/route.ts:29-32 | a printed count holds no line break |
| AiRoute.NoBreakInIndented | frontend/src/app/api/ai/route.ts:30-33 | indenting a block adds no line break |
| AiRoute.ModelMessages | frontend/src/app/api/ai/route.ts:47 | the model gets the system prompt first, then the caller's messages unchanged and in order |
| Json.LookupNone | backend/app/services/parse_chatgpt_conversation.py:54-62 | a key is missing from a parsed object exactly when no field carries it |
| Json.LookupSome | backend/app/services/parse_chatgpt_conversation.py:54-62 | a found value is that of the last field carrying the key, as in `json.load` |
| Json.Keys | backend/app/services/parse_chatgpt_conversation.py:58 | the keys of a parsed object: each distinct key once, and exactly the keys some field carries |
| Json.Items | backend/app/services/parse_chatgpt_conversation.py:58 | `items()` gives one pair per distinct key, in first-occurrence order, with the value the key looks up to |
| Json.KeyFound | backend/app/services/parse_chatgpt_conversation.py:58 | every listed key looks up to a value |
| Json.ItemsOfDistinct | backend/app/services/parse_chatgpt_conversation.py:58 | without repeated keys, iterating an object yields its fields exactly as written |
| Json.KeysOfDistinct | backend/app/services/parse_chatgpt_conversation.py:58 | without repeated keys, the keys are the fields' keys in order |
| Json.LookupDistinct | backend/app/services/parse_chatgpt_conversation.py:59 | without repeated keys, each field's key looks up to that field's value |
| Json.Iterate | backend/app/services/parse_chatgpt_conversation.py:38 | iterating a list yields its items, a string its characters; a number, a boolean or null raises `TypeError` |
| Json.StringItems | frontend/src/types/schema.ts:38-39 | the strings of a string array, one per item and in order |
| Json.StringArray | frontend/src/types/schema.ts:38-39 | a string array built from strings gives those strings back |
| Conversation.FormatTimestamp | backend/app/services/parse_chatgpt_conversation.py:25-31 | a missing or falsy value gives "N/A"; a non-zero number gives its UTC rendering; a truthy non-number raises `TypeError`; only truthy values can raise |
| Conversation.PartTexts | backend/app/services/parse_chatgpt_conversation.py:38-45 | one text per part, in order: strings verbatim, dicts through `json.dumps`, anything else through `str()` |
| Conversation.ProcessContentParts | backend/app/services/parse_chatgpt_conversation.py:33-46 | the loop returns the texts of the parts joined by newlines |
| Conversation.StringPartsRoundTrip | backend/app/services/parse_chatgpt_conversation.py:33-46 | single-line string parts come back verbatim when the result is split at newlines |
| Conversation.MessageContent | backend/app/services/parse_chatgpt_conversation.py:62-63 | a message without `content` has empty text; only a present `content` can raise |
| Conversation.NoPartsNoText | backend/app/services/parse_chatgpt_conversation.py:62-63 | missing or falsy `parts` give the empty text |
| Conversation.StringPartsText | backend/app/services/parse_chatgpt_conversation.py:62-63 | single-line string parts give those strings, one per line |
| Conversation.PartsText | backend/app/services/parse_chatgpt_conversation.py:62-63 | a non-empty parts list gives the processed parts |
| Conversation.ParseEntry | backend/app/services/parse_chatgpt_conversation.py:59-69 | an entry is skipped exactly when it is a dict whose `message` is missing or falsy; a non-dict entry raises `AttributeError` |
| Conversation.EntriesSkipEmpty | backend/app/services/parse_chatgpt_conversation.py:58-69 | a successful parse has one message per entry that holds a message |
| Conversation.ParseConversation | backend/app/services/parse_chatgpt_conversation.py:53-74 | a non-dict conversation raises `AttributeError`; a parsed conversation's title is its `title`, defaulting to "Untitled Conversation" |
| Conversation.DefaultsOfBareConversation | backend/app/services/parse_chatgpt_conversation.py:54-57 | a conversation with no title, no time and no mapping is "Untitled Conversation", "N/A", with no messages |
| Conversation.ParseAllPointwise | backend/app/services/parse_chatgpt_conversation.py:48-75 | a successful parse has one result per conversation, in order, each the parse of that conversation |
| Conversation.ParseAllSucceeds | backend/app/services/parse_chatgpt_conversation.py:48-75 | when every conversation parses, the whole parse succeeds |
| Conversation.ParseAllFailsEarly | backend/app/services/parse_chatgpt_conversation.py:53 | the first exception ends the parse: an exception in a prefix is the result of the whole parse |
| Conversation.ParseEntriesFailsEarly | backend/app/services/parse_chatgpt_conversation.py:58 | the same for the entries of one mapping |
| Conversation.ConvertEntry | backend/app/services/parse_chatgpt_conversation.py:59-69 | the inner loop body computes the entry's message, or its exception |
| Conversation.ParseMapping | backend/app/services/parse_chatgpt_conversation.py:58-69 | the inner loop computes the messages of the mapping, or the first exception |
| Conversation.ParseConversations | backend/app/services/parse_chatgpt_conversation.py:48-75 | the nested loops compute the conversations, or the first exception |
| Conversation.ChunkConversation | backend/app/services/parse_chatgpt_conversation.py:91-96 | a zero width raises `ValueError`; a negative width gives no chunks; a positive one gives the fixed-width chunks |
| Conversation.Chunks | backend/app/services/parse_chatgpt_conversation.py:96 | no chunks exactly for the empty text; every chunk is non-empty and at most `width` long, and all but the last are exactly `width` long |
| Conversation.ChunksConcat | backend/app/services/parse_chatgpt_conversation.py:96 | the chunks concatenate back to the text |
| Conversation.ChunkAt | backend/app/services/parse_chatgpt_conversation.py:96 | chunk k is the slice from k times the width to the next multiple, cut at the end of the text |
| Conversation.ShiftWindow | backend/app/services/parse_chatgpt_conversation.py:96 | the slice bounds of chunk k+1 are those of chunk k moved one width to the right |
| Conversation.ChunkCount | backend/app/services/parse_chatgpt_conversation.py:96 | there are as many chunks as multiples of the width below the length |
| Conversation.ProcessConversation | backend/app/services/parse_chatgpt_conversation.py:144-155 | every default-width chunk goes to theme extraction, in order, and the result is always empty |
| PdfParsing.NewChunk | models/chunk.py:4-14 | building a chunk raises `TypeError` exactly when no `pdf_loader` is given; otherwise every field holds the value passed and `embedding` is None |
| PdfParsing.FirstPage | core/pdf_parser.py:54 | `doc_data['pages'][0]`: a missing key raises `KeyError`, an empty list `IndexError`, and a non-empty list gives its first page |
| PdfParsing.ChunkEntries | core/pdf_parser.py:55-66 | the loop gives one chunk per entry, or `AttributeError` when some entry is not a dict |
| PdfParsing.LoaderChunkFields | core/pdf_parser.py:54-68 | one chunk per loader entry, in order, with the file name and checksum, `is_chart` exactly for tables and images, the entry's offset (0 when absent) as page number, `str(chunk_index)` as index, the content, the model and the loader type |
| PdfParsing.LoaderChunksReject | core/pdf_parser.py:55-62 | a non-dict entry anywhere makes the whole parse raise `AttributeError` |
| PdfParsing.Lines | core/pdf_parser.py:86-87 | one stripped line per piece of the text split at newlines |
| PdfParsing.StripAll | core/pdf_parser.py:87 | one stripped line per raw line |
| PdfParsing.StripAllAt | core/pdf_parser.py:87 | line k is raw line k stripped |
| PdfParsing.Group | core/pdf_parser.py:84-92 | the loop state keeps only non-empty lines in non-empty runs, and a run is open exactly when the last line is non-empty |
| PdfParsing.Runs | core/pdf_parser.py:84-96 | the paragraphs' line runs are non-empty and hold only non-empty lines |
| PdfParsing.JoinRuns | core/pdf_parser.py:91-96 | one paragraph per run, its lines joined by single spaces |
| PdfParsing.NonBlank | core/pdf_parser.py:99 | the filter keeps only paragraphs that are not white space only |
| PdfParsing.FlattenSnoc | core/pdf_parser.py:89-91 | reading the runs in order after closing one more run |
| PdfParsing.GroupKeepsLines | core/pdf_parser.py:84-92 | the closed runs and the open run, read in order, are the non-empty lines |
| PdfParsing.RunsKeepLines | core/pdf_parser.py:84-96 | paragraph grouping loses and reorders no line: the runs read in order are the non-empty lines |
| PdfParsing.GroupCount | core/pdf_parser.py:84-92 | the loop has closed or opened one run per line that opens a paragraph |
| PdfParsing.RunsCount | core/pdf_parser.py:84-96 | there is one paragraph per non-empty line that is first or follows an empty line |
| PdfParsing.GroupFromLines | core/pdf_parser.py:88-89 | every line of every run is one of the given lines |
| PdfParsing.RunsFromLines | core/pdf_parser.py:88-96 | the same for the final runs |
| PdfParsing.ParagraphsNonBlank | core/pdf_parser.py:86-99 | runs of stripped lines make paragraphs that are never blank, so the final filter drops none |
| PdfParsing.JoinStartsWith | core/pdf_parser.py:91 | a joined paragraph starts with the first character of its first line |
| PdfParsing.NonBlankKeepsAll | core/pdf_parser.py:99 | the filter keeps a list none of whose paragraphs is blank |
| PdfParsing.GroupStep | core/pdf_parser.py:86-92 | one more line advances the loop state the way the loop body does |
| PdfParsing.GroupLines | core/pdf_parser.py:83-96 | the loop gives one space-joined paragraph per run of non-empty lines |
| PdfParsing.SplitParagraphs | core/pdf_parser.py:80-99 | a page's text becomes its paragraphs |
| PdfParsing.Contents | core/pdf_parser.py:78-80 | one content entry per page |
| PdfParsing.ContentsAt | core/pdf_parser.py:78-99 | page i's content is its paragraphs and its image count |
| PdfParsing.TextChunks | core/pdf_parser.py:102-112 | one text chunk per paragraph |
| PdfParsing.ChartChunks | core/pdf_parser.py:115-126 | one chart chunk per image |
| PdfParsing.OldChunksEmptyIff | core/pdf_parser.py:78-126 | the document yields no chunk exactly when no page has a paragraph or an image |
| PdfParsing.OldChunkPages | core/pdf_parser.py:78-121 | every chunk's page number is between 1 and the page count |
| PdfParsing.TextBeforeCharts | core/pdf_parser.py:102-126 | within a page every text chunk comes before every chart chunk |
| PdfParsing.OldChunksPrefix | core/pdf_parser.py:78 | the chunks of earlier pages are a prefix of the document's chunks |
| PdfParsing.PdfParser.constructor | core/pdf_parser.py:11-15 | no current document and no current checksum |
| PdfParsing.PdfParser.ParsePdf | core/pdf_parser.py:32-68 | records the file name and checksum, then gives the loader chunks of the first page, or the exception the lookups raise |
| PdfParsing.PdfParser.ParsePdfOld | core/pdf_parser.py:71-129 | records the file name and checksum; with a loader name gives every page's paragraph chunks then chart chunks, pages in order; as written (no loader) raises `TypeError` unless the document has no paragraph and no image |
| PdfParsing.ChunkPages | core/pdf_parser.py:78-127 | the page loop computes the document's chunks, or the `TypeError` of the first chunk when no loader is given |
| PdfParsing.OldPageChunks | core/pdf_parser.py:78-126 | one iteration of the page loop gives that page's chunks |
| PdfParsing.PageChunksOf | core/pdf_parser.py:102-126 | the two inner loops give one chunk per paragraph then one per image; without a loader the first chunk raises |
| PdfParsing.OldChunksStep | core/pdf_parser.py:78 | one more page appends that page's chunks |
| PdfParsing.BlankPageChunks | core/pdf_parser.py:102-126 | a page with no paragraph and no image yields no chunk |
| PdfParsing.OldChunksLoaderFree | core/pdf_parser.py:103-125 | whether the document yields chunks does not depend on the loader name |
| PdfParsing.OldChunksNonEmpty | core/pdf_parser.py:102-126 | a page with a paragraph or an image makes the document yield a chunk |
| PdfParsing.OldParserRaises | core/pdf_parser.py:117-125 | a one-page document with one image makes the old parser build a chunk without `pdf_loader`, which raises `TypeError` |
| QaService.ColorForZero | core/qa_service.py:90 | a `[Ref0]` tag gets the last colour, because `-1 % 7` is 6 in Python |
| QaService.ColorCycle | core/qa_service.py:90 | colours repeat every seven references |
| QaService.FirstSevenDistinct | core/qa_service.py:90 | with the seven colours of line 38, references 1 to 7 get seven different colours, reference 1 cyan |
| QaService.Tag | core/qa_service.py:95 | a printed tag is at least six characters long |
| QaService.TagMatch | core/qa_service.py:82 | a match of `\[Ref(\d+)\]` has a non-empty run of digits followed by the closing bracket |
| QaService.RefsAfterTag | core/qa_service.py:82-95 | reading a printed tag back with the pattern gives its number, then the tags of what follows |
| QaService.TagMatchOfTag | core/qa_service.py:82-95 | the pattern matches a printed tag over exactly its digits |
| QaService.DigitRunOfDigits | core/qa_service.py:82 | the greedy digit run stops at the first non-digit |
| QaService.DigitsTail | core/qa_service.py:82 | the tail of a digit string is a digit string |
| QaService.Distinct | core/qa_service.py:86-90 | the map's keys: exactly the numbers found, each once |
| QaService.BuildColorMap | core/qa_service.py:86-90 | the loop maps each number found to its colour, and lists the keys in first-occurrence order |
| QaService.AddRef | core/qa_service.py:88-90 | one turn of that loop adds a number and its colour only when the number is new |
| QaService.ColorMapStep | core/qa_service.py:89-90 | a number is in the map exactly when it was found; a repeat changes nothing |
| QaService.HighlightReferences | core/qa_service.py:79-99 | the loops compute the highlighted text: every tag number replaced, highest first, by its coloured tag (what that text is on any input: QaService.HighlightWeave) |
| QaService.ApplyColorsStep | core/qa_service.py:94-97 | one turn of the replacement loop replaces one more tag |
| QaService.NoTagsUnchanged | core/qa_service.py:93-99 | text without tags comes back unchanged |
| QaService.LoneTagColored | core/qa_service.py:94-97 | a lone tag comes back wrapped in its colour and the reset code |
| QaService.HighlightOrder | core/qa_service.py:94 | the replacements run over each number found exactly once, in strictly decreasing order |
| QaService.DistinctPermutation | core/qa_service.py:94 | sorting the keys keeps them free of repeats |
| QaService.TwiceInMultiset | core/qa_service.py:94 | a value at two positions occurs at least twice |
| QaService.AtMostOnce | core/qa_service.py:94 | a value occurs at most once in a sequence without repeats |
| QaService.TagOpens | core/qa_service.py:97 | every occurrence of a tag starts with `[Ref` |
| QaService.SegmentOpenFree | core/qa_service.py:82-97 | prose without `[Ref`, followed by a tag, a colour code or nothing, opens no tag across the boundary |
| QaService.ClosedOpenFree | core/qa_service.py:93-97 | text whose every `[` is followed by something other than `R` opens no tag, whatever follows it |
| QaService.OpenFreeSkip | core/qa_service.py:97 | `replace` of a tag copies a stretch that opens no tag and goes on after it |
| QaService.CodesClosed | core/qa_service.py:38 | no colour code of the reference palette, and not the reset code, opens a tag |
| QaService.TagTailClosed | core/qa_service.py:95 | after its opening bracket, a tag holds no `[` |
| QaService.TagDigitsAt | core/qa_service.py:95 | the digits of a tag sit right after `[Ref` |
| QaService.TagMismatch | core/qa_service.py:95-97 | the tag of one number is not an occurrence of the tag of another, `[Ref1]` at the front of `[Ref10]` included |
| QaService.TagSkip | core/qa_service.py:97 | `replace` of the tag of one number copies the tag of any other |
| QaService.WrappedSkip | core/qa_service.py:96-97 | `replace` of a tag copies another number's tag between two codes that open no tag |
| QaService.ColoredSkip | core/qa_service.py:96-97 | `replace` of a tag copies the coloured tag of another number |
| QaService.TagAtFront | core/qa_service.py:97 | `replace` of a tag wraps the tag at the front and goes on after it |
| QaService.PieceStep | core/qa_service.py:96-97 | one `replace` colours the tag of its number and leaves coloured tags and other tags as they are |
| QaService.PieceStart | core/qa_service.py:95-96 | a tag, coloured or not, starts with `[` or the escape character |
| QaService.WeaveStep | core/qa_service.py:96-97 | one turn of the replacement loop colours exactly the tags of its number in prose with tags, and leaves the prose alone |
| QaService.ApplyWeave | core/qa_service.py:94-97 | replacing the tags of distinct numbers one by one colours exactly the tags of those numbers |
| QaService.WeaveAgree | core/qa_service.py:94-97 | which tags end up coloured depends only on which of their numbers were replaced |
| QaService.RefsSkip | core/qa_service.py:82-83 | prose that opens no tag adds no reference |
| QaService.RefsWeave | core/qa_service.py:82-83 | the references found in prose with tags are the tags' numbers, in order |
| QaService.HighlightWeave | core/qa_service.py:79-99 | for any prose pieces without `[Ref` and any tags between them, every tag comes back wrapped in its colour and the reset code exactly once, and the prose comes back unchanged |
| QaService.TagInProse | core/qa_service.py:93-99 | a tag inside prose without `[Ref` is wrapped, and the prose around it is left alone |
| QaService.TwoTagsInProse | core/qa_service.py:93-99 | two tags inside prose are both wrapped, each once, whether their numbers differ or not |
| QaService.OneAndTen | core/qa_service.py:93-99 | `[Ref1] [Ref10]` comes back as the two coloured tags: the replacement of `[Ref1]` does not touch `[Ref10]` |
| QaService.ContextEntries | core/qa_service.py:135-138 | one context entry per hit, in order, the i-th tagged `[Ref{i+1}]` |
| QaService.ContextNumbering | core/qa_service.py:135-138 | the i-th context entry's first tag is reference i+1, followed only by the tags in the hit's own text |
| QaService.RefsSkipSpace | core/qa_service.py:136 | the space after a tag adds no reference |
| QaService.LegendBodies | core/qa_service.py:171-173 | one legend line per hit, in order, naming the document and page of hit i as `[Ref{i+1}]` |
| QaService.NewLinesSnoc | core/qa_service.py:173 | appending one more legend line puts it after a line break |
| QaService.LegendIsNewLines | core/qa_service.py:170-173 | the legend is its heading followed by one line per hit, each after a line break |
| QaService.LegendBodiesPrefix | core/qa_service.py:171 | the legend lines of the first k hits are the first k legend lines |
| QaService.BuildLegend | core/qa_service.py:170-173 | the loop builds the legend |
| QaService.JoinNewLines | core/qa_service.py:170-173 | lines appended after a block of lines extend the block |
| QaService.LegendLines | core/qa_service.py:170-173 | read line by line, the legend is two blank lines, "References:", and one line per hit in order, when no title or page holds a line break |
| QaService.HeadedLines | core/qa_service.py:170-173 | the heading followed by single-line entries splits back into the heading's lines and the entries |
| QaService.HeadJoin | core/qa_service.py:170 | the heading is two blank lines and "References:" |
| QaService.UnbrokenConcat | core/qa_service.py:170-173 | lines free of line breaks stay so under concatenation |
| QaService.HeadUnbroken | core/qa_service.py:170 | the heading's lines hold no line break |
| QaService.LegendBodiesUnbroken | core/qa_service.py:173 | no legend line holds a line break when no title or page does |
| QaService.BodyUnbroken | core/qa_service.py:173 | one legend line holds no line break when its title and page do not |
| QaService.TagUnbroken | core/qa_service.py:95 | a printed tag holds no line break |
| QaService.AnswerQuestion | core/qa_service.py:101-176 | the hits of every query are gathered in order; with none, the yellow note and the general answer; otherwise the model's answer plus the legend, highlighted |
| Indexing.SourceOf | core/indexing_service.py:70-80 | the `_source` document holds all nine fields of the chunk and gives the chunk back |
| Indexing.ActionFor | core/indexing_service.py:66-81 | a bulk entry is an `index` operation on the index, with the deterministic id and the chunk's document |
| Indexing.Actions | core/indexing_service.py:65-83 | one bulk entry per chunk, in chunk order |
| Indexing.ChunksOf | core/indexing_service.py:65-83 | reading the documents back gives one chunk per entry |
| Indexing.ActionsKeepChunks | core/indexing_service.py:65-83 | the bulk request carries every chunk unchanged and in order |
| Indexing.ActionsDeduplicate | core/indexing_service.py:64-69 | two chunks that agree on checksum, model, page, index, loader and strategy get the same `_id`, so re-indexing overwrites instead of duplicating |
| Indexing.DashCancel | core/indexing_service.py:69 | a dash-free first part of the id is split off unambiguously |
| Indexing.IndexOfDash | core/indexing_service.py:69 | the first dash of the id follows the dash-free first part |
| Indexing.StrategyCancel | core/indexing_service.py:69 | the common `-basic` ending comes off two equal ids |
| Indexing.DocIdShape | core/indexing_service.py:69 | the id is checksum, model, page, index, loader and strategy joined by dashes |
| Indexing.ModelCancel | core/indexing_service.py:69 | a shared model name comes off two equal ids |
| Indexing.DocIdInjective | core/indexing_service.py:69 | for one embedding model and dash-free checksum, page and index, equal ids mean the chunks agree on every id field |
| Indexing.IndexChunks | core/indexing_service.py:61-97 | no chunks: no bulk call and `None`; otherwise exactly one bulk call with the actions, its statistics returned and its exception re-raised |
| Indexing.Subscript | core/indexing_service.py:148 | `v[key]` gives the field when `v` is an object holding it, raises KeyError when the key is missing and TypeError on a non-object |
| Indexing.BucketKey | core/indexing_service.py:148 | a bucket's key is taken exactly when the bucket is an object with a hashable `key` |
| Indexing.BucketKeysIff | core/indexing_service.py:148 | the set comprehension succeeds exactly when every bucket is good, and then yields every bucket's key |
| Indexing.ExistingChecksums | core/indexing_service.py:126-151 | a failed search gives the empty set |
| Indexing.ExistingChecksumsOfBuckets | core/indexing_service.py:148 | a well-formed answer gives exactly its bucket keys |
| Indexing.ExistingChecksumsMalformed | core/indexing_service.py:148-151 | a malformed answer, or one bad bucket, gives the empty set |
| Indexing.ExistingChecksumsSound | core/indexing_service.py:126-148 | every checksum reported as existing is the key of some bucket of a well-formed answer |
| Cli.WordEnd | main.py:328 | the first word ends within the line |
| Cli.WordEndFacts | main.py:328 | the first word holds no white space, and white space ends it |
| Cli.SpaceEnd | main.py:328 | the gap after the first word ends within the rest |
| Cli.SpaceEndFacts | main.py:328 | the gap is all white space, and a non-space character ends it |
| Cli.ParseCommandEmptyIff | main.py:321-330 | the command is empty exactly when the line is blank, and a blank line has no arguments |
| Cli.ParseCommandSplits | main.py:321-330 | the stripped line is the first word, white space and the arguments; the command is the word lower-cased; non-empty arguments start after some white space with a non-space character |
| Cli.WordGapArgs | main.py:328-330 | the first word, the gap and the arguments make up the stripped line |
| Cli.DispatchUnknown | main.py:332-374 | a command is unknown exactly when it is none of the eight commands; the empty command is unknown |
| Cli.DispatchCalls | main.py:340-368 | `ingest` and `ask` call their service exactly when given arguments; `invalidate` and `reload` only in development; `exit` exactly on `exit`; the arguments are passed on unchanged |
| Cli.MissingArguments | main.py:341-361 | `ingest`, `ask` or `invalidate` without arguments calls nothing and is refused with a message |
| Cli.ReadLines | main.py:321 | one stripped, parsed line per input |
| Cli.ReadLinesPrefix | main.py:321 | reading a prefix of the inputs reads a prefix of the lines |
| Cli.ReadLinesAt | main.py:321-330 | the k-th line read is the k-th input, stripped and parsed |
| Cli.ReplayStops | main.py:333-335 | once `exit` has been read, further lines change nothing |
| Cli.RecordedAnyEnv | main.py:324-335 | the history and the stopping point do not depend on the environment |
| Cli.ReplayLength | main.py:318-335 | at most one effect per line, and exactly one per line while the loop has not exited |
| Cli.ReplayDispatches | main.py:332-374 | the k-th effect is the dispatch of the k-th line |
| Cli.SessionDispatches | main.py:318-374 | the k-th effect of a session is the dispatch of the k-th input as parsed |
| Cli.ReplayExitLast | main.py:333-335 | a session has exited exactly when its last effect is `exit`, and no earlier effect is one |
| Cli.ReplayDevOnly | main.py:355-368 | outside development no line ever invalidates documents or reloads the services |
| Cli.RecordedNonBlank | main.py:324-325 | the history holds exactly the non-blank stripped lines read, the exiting one included |
| Cli.Cli.constructor | main.py:314-325 | a new CLI has an empty history |
| Cli.Cli.Run | main.py:314-374 | the loop reads lines until `exit` or the end of the input; its effects and the history it records are those of the session |
| Cli.Cli.Serve | main.py:321-374 | one turn strips the line, records it unless blank, parses and dispatches it |
| Cli.ResumeIsReplay | main.py:318-374 | going on from the session of the first i lines gives the session of all of them |
| Cli.RunIsSession | main.py:314-374 | the loop's effects and history are the session's effects and the non-blank lines it records |
| Cli.Names | main.py:94-97 | the names of the files, in order |
| Cli.SelectIff | main.py:88-97 | a file is new exactly when its checksum is not already indexed, and skipped exactly when it is |
| Cli.PartitionCounts | main.py:88-97 | the new and the skipped files add up to the folder's files |
| Cli.SelectAppend | main.py:88-97 | the split keeps folder order |
| Cli.SearchFailedAllNew | main.py:85-91 | when the checksum lookup fails, every file is processed as new |
| Cli.OutcomeCounts | main.py:112-138 | each processed file counts once, as a success or as an error |
| Cli.NoErrorsIff | main.py:134-141 | no error line exactly when every file went through |
| Cli.ProcessAll | main.py:112-138 | the loop counts the files that went through, and collects `name: message` for each that raised, in order |
| Cli.IngestFolder | main.py:65-152 | a missing folder and an empty folder stop first; nothing new stops after the skipped list; otherwise the new files are processed |
| Cli.IngestCounts | main.py:99-149 | successes and errors add up to the new files, new and skipped to the folder, and all succeeded exactly when no error was collected |
| Cli.ConfigItemsIff | main.py:288-293 | a setting is listed exactly when its name is upper case, has no `PRIVATE_` prefix and is not declared private |
| Cli.GroupKey | main.py:299 | a name with `_` belongs to the group before its first `_`, and splits back into it; any other to `MISC` |
| Cli.GroupsAreFilters | main.py:296-302 | a group exists exactly when some setting has its key, and holds exactly those settings, in order |
| Cli.GroupOrderCovers | main.py:296-302 | every listed setting's group is present |
| Cli.GroupOrderDistinct | main.py:300-301 | no group is created twice |
| Cli.GroupSettings | main.py:296-302 | the loop fills each group with its settings in order |
| Cli.TitleAt | main.py:309 | `title` puts a letter after a letter in lower case and any other in upper case |
| Cli.TitleIdempotent | main.py:309 | title-casing twice is title-casing once |
| Cli.ReplaceUnderscores | main.py:309 | replacing `_` leaves none |
| Cli.SettingNameNoUnderscore | main.py:309 | a shown setting label never holds `_` |
| Cli.ItemLeIsTotalPreorder | main.py:307 | ordering settings by name is total and transitive |
| Cli.KeysSorted | main.py:305 | the groups are printed in ascending order |
| Cli.KeysAreGroups | main.py:305 | the printed groups are exactly the groups |
| Cli.KeysDistinct | main.py:305 | no group is printed twice |
| Cli.ItemsSorted | main.py:307 | a group's settings are printed sorted by name, and are exactly that group's settings |
| Cli.ItemLines | main.py:307-310 | one printed line per setting, in order |
| Cli.ShowSettings | main.py:282-312 | the header, then each group in sorted order with its sorted settings, then an empty line |
| Cli.PrintGroup | main.py:305-310 | a group's header, then one line per setting in sorted order |
| Sorting.Insert | main.py:305 | inserting keeps every element and adds one |
| Sorting.Sort | main.py:305 | `sorted` is a permutation of its input |
| Sorting.InsertSorted | main.py:305 | inserting into a sorted list keeps it sorted |
| Sorting.SortSorted | main.py:305-307 | `sorted` orders its result |
| Sorting.LexLeTotal | main.py:305 | any two strings compare |
| Sorting.LexLeTrans | main.py:305 | string comparison chains |
| Sorting.LexLeAntisym | main.py:305 | two strings each `<=` the other are equal |
| Sorting.LexLeIsTotalPreorder | main.py:305 | string comparison is a total preorder |
| Strings.Join | frontend/src/app/api/ai/route.ts:30-33 | joining one part gives the part, and no parts the empty string |
| Strings.JoinAppend | frontend/src/app/api/ai/route.ts:27-47 | joining two non-empty runs puts one separator between their joins |
| Strings.ConcatAppend | backend/app/services/parse_chatgpt_conversation.py:96 | the concatenation of two runs of chunks is the concatenation of each run |
| Strings.IndexOf | core/indexing_service.py:69 | the first occurrence of a character, or -1 exactly when it is absent |
| Strings.Split | core/pdf_parser.py:86 | `split` with a one-character separator gives at least one piece |
| Strings.JoinSplit | core/pdf_parser.py:86 | joining the pieces of a split with the separator gives the original text |
| Strings.SplitJoin | frontend/src/app/api/ai/route.ts:27-47 | splitting a join of separator-free parts gives the parts back |
| Strings.SplitCons | main.py:299 | a separator-free part before the separator splits off as the first piece |
| Strings.NoSepPrefix | main.py:299 | the first separator follows a separator-free first part |
| Strings.NatToString | frontend/src/app/api/ai/route.ts:27-47 | a printed natural number is a non-empty run of digits without a leading zero |
| Strings.DigitChar | core/qa_service.py:95 | a digit prints as the character of its value |
| Strings.AllDigitsAt | core/qa_service.py:82 | every character of a digit string is a digit |
| Strings.NatToStringDigits | core/qa_service.py:82-95 | every character of a printed number is a digit |
| Strings.DigitsValueSnoc | core/qa_service.py:83 | appending a digit multiplies by ten and adds it |
| Strings.DigitsValueOfNatToString | core/qa_service.py:83-95 | reading a printed number back with `int` gives the number |
| Strings.NatToStringInjective | core/qa_service.py:95 | different numbers print differently |
| Strings.AllSpaceAppend | core/pdf_parser.py:87 | two runs are white space exactly when both are |
| Strings.AllSpaceAt | core/pdf_parser.py:87 | every character of a white-space run is white space |
| Strings.StripStart | main.py:321 | dropping leading white space leaves a suffix that starts with a non-space character |
| Strings.StripStartDropsSpace | main.py:321 | what is dropped at the front is white space |
| Strings.StripEnd | main.py:321 | dropping trailing white space leaves a prefix that ends with a non-space character |
| Strings.StripEndDropsSpace | main.py:321 | what is dropped at the end is white space |
| Strings.Strip | main.py:321 | a stripped text neither starts nor ends with white space |
| Strings.StripStartEmptyIff | main.py:321 | stripping the front leaves nothing exactly when the text is all white space |
| Strings.StripEndEmptyIff | main.py:321 | stripping the end leaves nothing exactly when the text is all white space |
| Strings.StripEmptyIff | main.py:321-324 | a text strips to nothing exactly when all of it is white space |
| Strings.StripKeepsFirstNonSpace | main.py:321 | a text starting with a non-space character does not strip to nothing |
| Strings.JoinCons | frontend/src/app/api/ai/route.ts:30-33 | joining a part before a non-empty run puts one separator after it |
| Strings.ReplaceAllAt | core/qa_service.py:97 | where the pattern stands at the front, `replace` puts the replacement there and scans on after it |
| Strings.ReplaceAllSkip | core/qa_service.py:97 | a stretch where no occurrence starts is copied unchanged, and the scan goes on after it |
| Strings.ReplaceAllAbsent | core/qa_service.py:97 | `replace` leaves text in which the pattern occurs nowhere unchanged |
| Strings.DigitRun | core/qa_service.py:82 | the digit run is digits and stops at the first non-digit |
| Strings.AllDigitsCons | core/qa_service.py:82 | a digit before a digit string is a digit string |
| Strings.AsciiLower | main.py:329 | `lower` maps each ASCII capital to its small letter and leaves every other character |

## Left out

- `addPromptNode`: it is declared in the store's type but defined nowhere in the store. The "Add Prompt" buttons of the information and task nodes (`handleAddPromptNode`) are therefore not modelled.
- The code node: its `onFinish` builds nodes and edges and then discards them, and its `handleSubmit` is empty.
- The d3 `stratify`/`tree` placement is a function parameter. Only the parent rule that feeds it is modelled.
- The d3 timer's scheduling and real time: each tick is a call with the elapsed time as a parameter.
- JavaScript and Python floating point: positions, elapsed times and JSON numbers are reals, and rounding is ignored.
- Concurrency, overlapping expansions and React's rendering. Each commit is one sequential step over the node and edge snapshots it is given, stale or not.
- `generateId` is a supply of fresh ids, given to the commit.
- The language-model calls are parameters or inputs: the generation stream, the `useObject` hook, `streamObject`, OpenAI and LangChain, `_refine_question` with its `json.loads`, and `extract_themes_from_chunk`. The generator's output is a given sequence of parsed records.
- The OpenSearch client is outside the model. Its stand-ins are parameters or inputs: `helpers.bulk`, the search of `check_existing_checksums`, and the hybrid search of `_search_similar_chunks`. `ensure_index`, `get_index_stats`, `get_sample_documents` and the two `delete_*` operations are not modelled, because they are client calls with no logic of their own.
- Serialisation is a function parameter: `JSON.stringify`, `json.dumps`, Python's `str` on arbitrary values, and `strftime` on UTC timestamps.
- Unicode case mapping: `lower` and `title` are modelled on ASCII letters only.
- File access is not modelled: `Path.exists`, `glob`, fitz, the MD5 checksum and the PDF loader factory. Their results are inputs.
- `display_conversations` and `load_chatgpt_json` are output and file reading.
- The terminal is not modelled: readline's key bindings, colorama (its codes are kept as constants), tqdm, and the printed progress and status texts of ingestion, the welcome and help screens, `ask_question` and `show_index_status`.
- `invalidate_documents` and `reload_services`: dispatch names them, and their bodies are file system and module reloading.
- The run loop's `KeyboardInterrupt` and generic exception handlers, and end of input. The model's loop stops at `exit` or when the given lines run out.
- The environment's values: `IS_DEV` and the settings are parameters, and each setting's value is the text `str` gives it.
- Cli.IngestFolder: the outer `except` that prints a fatal error is not modelled, because every step the model covers fails through an explicit result.
- QaService.TagMatch, Strings.DigitRun: `\d` and `int` are modelled on the ASCII digits 0-9 only. Python also accepts the other Unicode decimal digits, and their `int` values are not modelled.
- Strings.ReplaceAll: Python's `replace` with an empty pattern is not modelled. Every pattern the source uses is non-empty.

## Findings

| source | as written | input that shows it | evidently intended | confidence | as-written member | corrected member |
|---|---|---|---|---|---|---|
| frontend/src/hooks/use-layout.tsx:114-118 | `fitView` is called only when `initial.current` is already false, so it is skipped on the first completed pass and then called on every later pass | two layout passes that each run past 300 time units: `fitView` is called on the second, not on the first | the first-pass flag fits the view once, after the first layout | not executed | Layout.FitCallsAsWritten | Layout.FitCallsIntended, used by Layout.LayoutEffect.Tick |
| core/pdf_parser.py:103-125 | `parse_pdf_old` builds each `ParagraphChunk` without its required `pdf_loader` field, so the first chunk raises `TypeError` | a one-page document whose page holds one image and no text | every chunk carries the name of the loader that produced it | not executed | PdfParsing.OldParserRaises | PdfParsing.PdfParser.ParsePdfOld, given a loader name |
