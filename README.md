# scribe-js scout and visitor, modelled in Dafny

scribe-js writes documentation pages for JavaScript files. Its scout takes the text of a file and the syntax tree
the Acorn parser builds for it. It finds every documentable entity: function declarations, class
declarations, the methods of class bodies, and variables that hold a function or an arrow function. It
then locates each one's header in the text and reports the header's 1-based line, its 0-based
indentation, the header text, the enclosing class and the parameter names.

This project models that pipeline of `utils/scout.js` and the child table of `utils/visitor.js`, and it
proves what each step promises:

- `Estree` is the tree as the parser delivers it. It is a closed datatype of node kinds, plus the
  sentinels `Null`, `Invalid` and `Unknown` and a catch-all for other `type` strings. An empty `type` is
  falsy in JavaScript, so a catch-all holding "" counts as untyped.
- `Visitor` models `getChildren`, the fixed child order of every kind in the table.
- `Matcher` models the header patterns. They are literals separated by the gaps `[ \t\n]*` (Any) and
  `[ \t\n]+` (Many).
  - `Derives` states what such a regular expression matches, over every way of splitting the blanks.
  - `MatchAt` is a greedy matcher, and `Exec` is the leftmost search of `RegExp.prototype.exec`.
  - The two agree whenever every gap is followed by a literal that starts with a non-blank character.
- `SourceText` models the normalised text (`\r` dropped, tabs as four spaces), its split into lines, and
  `indexToLine`.
- `ClassIsolator` models `extractClass`: it finds the class header, then scans braces until the count
  comes back to zero.
- `Headers` models `buildRegExp`: the header pattern of each documentable node, grown piece by piece as
  the source grows its string.
- `Discoverer` models `documentables`: the walk over an explicit stack. It is proved equal to a
  recursive pre-order reference definition.
- `Assembler` models `metainfo` with its class-text cache, and `scout` as the composition of the two.

Two behaviours of the source are kept as written:

- A method whose class header is missing from the text makes `extractClass` read `.index` of `null`. The
  whole scout then throws; the method is not quietly dropped. The model returns
  `Err(ClassHeaderMissing(name))`.
- A class whose braces never balance leaves `finish` at -1. `substring(start, -1)` is then the text
  before the class header, and that text is where the class's methods are searched.

## Model

| member | source | states |
|---|---|---|
| Estree.NameText | utils/scout.js:187 | an Identifier is spliced into a pattern as its name; any other node as the text "undefined", the way JavaScript concatenates `p.name` |
| Estree.ParamNames | utils/scout.js:93 | one entry per parameter, in order: the name of an Identifier parameter, nothing (`undefined`) for any other parameter |
| Estree.ParamTexts | utils/scout.js:189 | one spliced name per parameter, in order |
| Visitor.NullGivesNullSentinel | utils/visitor.js:75 | `null` gives exactly one node, of type "Null" |
| Visitor.GetChildren | utils/visitor.js:74-141 | every child of a node of the table's kinds is one of its subterms, so a walk over children stops; `null`, an untyped value and a catch-all give exactly one sentinel |
| Visitor.UntypedGivesInvalid | utils/visitor.js:76 | a value whose type is missing or the empty string gives exactly one "Invalid" node that wraps it |
| Visitor.TypedKindsAreListed | utils/visitor.js:78-138 | every node kind of the datatype other than the catch-all is named in the table, so only the catch-all reaches the default branch |
| Visitor.UnlistedGivesUnknown | utils/visitor.js:139-140 | a non-empty type the table does not list gives exactly one "Unknown" node that wraps the input, and only the catch-all has such a type |
| Visitor.LeavesHaveNoChildren | utils/visitor.js:129-138 | the leaf kinds are listed as leaves and have no children |
| Visitor.SentinelExpandsOnce | utils/visitor.js:136-140 | an input that yields a sentinel yields exactly one child, and that child has none, so expanding twice ends |
| Visitor.ThreeWayChildren | utils/visitor.js:88-99 | if-statements and conditionals give test, consequent, alternate in that order, with a null alternate kept in third place |
| Visitor.ClassAndProgramChildren | utils/visitor.js:126-128 | a class declaration gives `[body]` and a method `[value]`; a class body and (line 80) a program give their body list unchanged |
| Visitor.CalleeThenArguments | utils/visitor.js:86 | calls and (line 115) `new` give the callee, then the arguments in order: one more child than there are arguments |
| Visitor.IdParamsBody | utils/visitor.js:100-103 | function declarations and expressions give the id, the parameters in order, then the body |
| Matcher.MatchAtSound | utils/scout.js:239 | whatever the greedy matcher reports at a position is a match of the regular expression there |
| Matcher.MatchAtComplete | utils/scout.js:178-179 | for a well-separated pattern, any match at a position is the one the greedy matcher reports |
| Matcher.DerivesUnique | utils/scout.js:178-179 | for a well-separated pattern, the match at a fixed position is unique |
| Matcher.SearchFrom | utils/scout.js:80 | a match found from a position starts no earlier than it and lies within the text |
| Matcher.Exec | utils/scout.js:80 | a match `exec` reports lies within the text |
| Matcher.SearchFromLeftmost | utils/scout.js:80 | searching from a position reports a true match with no match starting earlier, and reports nothing only when nothing matches from there on |
| Matcher.ExecLeftmost | utils/scout.js:80 | `exec` reports a true match and no match starts further left; it reports nothing exactly when nothing matches anywhere |
| Matcher.RenderMatches | utils/scout.js:239 | a well-separated pattern matches its own rendering (each gap as its shortest blank run), and the match covers exactly the rendering |
| Matcher.FindsRendering | utils/scout.js:80 | a search for a well-separated pattern succeeds no later than any occurrence of its rendering, and covers the rendering when it starts there |
| Matcher.LeftmostBefore | utils/scout.js:80 | the search finds a match starting no later than any match, and one starting at the same place ends at the same place |
| Matcher.ExecOpensWithLiteral | utils/scout.js:80 | for a pattern opening with a literal, the search fails exactly when nothing matches; a match it finds is non-empty and starts with the literal's first character |
| SourceText.DropReturns | utils/scout.js:61 | no carriage return is left, and every other character of the text remains |
| SourceText.ExpandTabs | utils/scout.js:61 | no tab is left, and every character other than tab and space is kept and none is added |
| SourceText.Normalize | utils/scout.js:61 | the text searched contains neither carriage returns nor tabs |
| SourceText.NormalizeIdempotent | utils/scout.js:61 | normalising normalised text changes nothing |
| SourceText.SplitLines | utils/scout.js:62 | there is always at least one line, and no line holds a line feed |
| SourceText.SplitJoin | utils/scout.js:62 | joining the lines with line feeds gives the text back |
| SourceText.TotalIsLength | utils/scout.js:62 | the sum of `length + 1` over the lines is the text's length plus one, so every offset of the text can be located |
| SourceText.LocatedAtUnique | utils/scout.js:118-129 | at most one (line, indent) pair satisfies the `indexToLine` promise for an offset |
| SourceText.PositionLocates | utils/scout.js:121-128 | the line-by-line reference location keeps the promise: (-1, -1) for a negative offset or one at or past the total; otherwise line i+1, and the start of line i plus the indent is the offset, with the indent at most the line's length |
| SourceText.IndexToLine | utils/scout.js:118-129 | the loop's result keeps that promise, and it is the reference location |
| SourceText.PositionPointsAtChar | utils/scout.js:118-129 | the location of an offset of the text points back at that offset's character, or at a line's end when the character is a line feed |
| SourceText.PositionOfChar | utils/scout.js:118-129 | an offset holding a character other than a line feed is found inside a line, at that line's start plus the indent, and the line holds the character there |
| ClassIsolator.ClassPattern | utils/scout.js:145 | the class header pattern `class` Many name Any `{` is well separated |
| ClassIsolator.SubstringSlices | utils/scout.js:162 | `substring` is never longer than the text; in-range ends give the slice between them in either order, and a negative end gives the text before the other end |
| ClassIsolator.ExtractClass | utils/scout.js:144-163 | the brace-counting loop returns the class text of its reference definition: nothing when the header is missing (where the source throws), otherwise the first header's start and the substring up to the first balancing point |
| ClassIsolator.FirstCloseLeast | utils/scout.js:149-161 | the scan stops at the first point where a brace has been entered and the count is zero, and runs off the end (-1) exactly when no such point exists |
| ClassIsolator.ClassSpanBalanced | utils/scout.js:145-162 | when the braces balance, the class text starts at the leftmost header match and is the slice of the text from there. It holds a `{` and as many `{` as `}`, and no shorter prefix past its first `{` is balanced |
| ClassIsolator.BalancedScan | utils/scout.js:149-162 | the text a stopping scan cuts out is a slice of the text from the start, holds as many `{` as `}`, and no shorter entered prefix is balanced |
| ClassIsolator.ClassSpanUnbalanced | utils/scout.js:148-162 | when the braces never balance, the class text is the text BEFORE the class header |
| ClassIsolator.ClassSpanMissing | utils/scout.js:145 | the header is missing exactly when no class header for the name occurs anywhere in the text |
| Headers.AppendParams | utils/scout.js:188-191 | the loop appends the parameter section to the pattern built so far |
| Headers.BuildFunctionHeader | utils/scout.js:182-193 | the function-declaration branch builds the declaration's header pattern |
| Headers.BuildFunctionValueHeader | utils/scout.js:195-207 | the branch for a variable holding a function expression builds its header pattern |
| Headers.BuildArrowHeader | utils/scout.js:209-218 | the branch for a variable holding an arrow function builds its header pattern |
| Headers.BuildMethodHeader | utils/scout.js:224-237 | the method branch builds the method's header pattern |
| Headers.BuildPattern | utils/scout.js:177-240 | `buildRegExp` builds the header pattern of every documentable node |
| Headers.ParamSectionShape | utils/scout.js:188-191 | a parameter section of n names has 4n-1 tokens. Name k sits at 4k+1 between two gaps, and a comma sits at 4k+3 between neighbours: n-1 commas, none after the last |
| Headers.HeaderWellSeparated | utils/scout.js:177-240 | every header pattern is well separated, so its match at a position is unique and the greedy matcher finds it |
| Headers.ClassHeaderIsClassPattern | utils/scout.js:221 | the class header is exactly `class` Many name Any `{`, the pattern `extractClass` searches |
| Headers.AsyncAddsPrefix | utils/scout.js:183 | `async` puts `async` and Many in front of a function declaration's header |
| Headers.AsyncValueAddsPrefix | utils/scout.js:197 | for a variable holding a function, `async` and Many go right after `name Any = Any` |
| Headers.AsyncArrowAddsPrefix | utils/scout.js:211 | for an arrow function, `async` and Many go right after `name Any = Any` |
| Headers.StaticAddsPrefix | utils/scout.js:225 | `static` puts `static` and Many in front of a method's header |
| Headers.GetterHeader | utils/scout.js:226-236 | a getter's header is `get` Many name Any `(` `)` Any `{`, with no parameters whatever the function has |
| Headers.SetterHeader | utils/scout.js:227-229 | a setter's header lists its first parameter only; later parameters do not change it |
| Headers.MethodListsParams | utils/scout.js:230-235 | plain methods and constructors list every parameter, in order |
| Headers.HeaderFindsRendering | utils/scout.js:239 | a header pattern is found no later than any occurrence of its rendering, and it covers the rendering when found there |
| Headers.MatchesInsideLongerName | utils/scout.js:210-218 | patterns have no word boundaries: the header of `name = () =>` is found one character into any text that starts with another character, and so also inside a longer name that ends in `name` |
| Headers.HeaderStartsWithWord | utils/scout.js:177-240 | every header pattern opens with its opening word as a literal: `async`, `function`, the name, `class`, `static`, `get` or `set` |
| Discoverer.Tag | utils/scout.js:265-266 | each child becomes one frame under the given class, in order |
| Discoverer.Reverse | utils/scout.js:266 | the frames in reverse order |
| Discoverer.PushReversed | utils/scout.js:265-266 | frames pushed in reverse pop in order: what remains to be found is theirs in order, then the rest of the stack |
| Discoverer.CollectDeclarators | utils/scout.js:280-286 | the loop collects the declarators of the reference definition |
| Discoverer.CollectMethods | utils/scout.js:288-293 | the loop collects the methods of the reference definition |
| Discoverer.Visit | utils/scout.js:259-293 | one popped frame: its own entities, then those below the frames it pushes, are exactly the reference walk's entities below it; the pushed frames are smaller |
| Discoverer.Documentables | utils/scout.js:254-296 | the stack walk finds exactly the reference pre-order walk's entities, in source order |
| Discoverer.DeclaratorsMembers | utils/scout.js:281-284 | exactly the declarators whose initialiser is a function or arrow expression are collected, each with the declaration's kind |
| Discoverer.MethodsMembers | utils/scout.js:289-291 | exactly the method definitions of a class body are collected, each under the class's name |
| Discoverer.ClassThenMethods | utils/scout.js:269-273 | a class declaration is found first, untagged, and right after it come the methods of its body in member order, each tagged with the class name |
| Discoverer.OnlyMethodsHaveAClass | utils/scout.js:264-291 | outside class bodies nothing is attributed to a class: only methods carry one |
| Discoverer.DiscoveredCollected | utils/scout.js:264-291 | every entity found below a parser-shaped tree is documentable, carries a kind exactly when it is a declarator, and a class has no class |
| Discoverer.WalkableTraversable | utils/scout.js:259-291 | a parser-shaped tree is safe to walk: no property read on `null`, and every expanded class is named |
| Assembler.ClassKey | utils/scout.js:72 | the cache key is the class name, or the text "null" for no class |
| Assembler.Describe | utils/scout.js:89-99 | the record sits at the given line and indent; it is a class record exactly for a class; a function record carries the entity's class; its header ends with the matched text, and only a declarator's carries more in front |
| Assembler.Place | utils/scout.js:74-87 | a record exists exactly when there is a match whose offset in the text lies inside the lines, and it sits at the line and indent that locate that offset |
| Assembler.Entry | utils/scout.js:71-99 | an entity's entry fails exactly for a method whose class text `extractClass` cannot find, and the failure names that class |
| Assembler.Record | utils/scout.js:74-99 | one search records the placement of the leftmost header match at its offset, or nothing |
| Assembler.Search | utils/scout.js:71-86 | one loop step gives the entity's entry. The cache stays sound: every entry is what `extractClass` returns for its key. At most one key is added, and only a new one |
| Assembler.Metainfo | utils/scout.js:59-103 | the loop gives the gathered entries. `extractClass` runs at most once per class name, and every name whose text is cached has a header; a name without one is extracted once and ends the run |
| Assembler.Scout | utils/scout.js:41-44 | on a parser-shaped tree, the scout gives the gathered entries of the walk's entities |
| Assembler.GatherErrSticks | utils/scout.js:65-100 | once an entry fails, the whole result fails with that failure |
| Assembler.GatherOutcome | utils/scout.js:65-100 | the result succeeds exactly when every entry does; otherwise it fails with the failure of the first entry that fails |
| Assembler.GatherKeepsOrder | utils/scout.js:65-100 | the records are those of the entries that record something, in input order: an order-preserving subsequence, dropping exactly the entries that record nothing |
| Assembler.EntryFailsOnlyWithoutClassHeader | utils/scout.js:72 | an entry fails exactly for a method whose class header occurs nowhere in the text, and the failure names that class |
| Assembler.PlaceFound | utils/scout.js:75-87 | a match whose first character lies in the text is always recorded, at the line and indent of that offset, which hold the character; no match, no record |
| Assembler.SearchPlaced | utils/scout.js:74-87 | searching a slice of the text: no record exactly when the pattern matches nowhere in the slice; otherwise a record at the slice's start plus the match index, where the pattern's first character sits |
| Assembler.TopLevelEntry | utils/scout.js:79-99 | a function, variable or class is dropped exactly when its header occurs nowhere. Otherwise its record sits at the leftmost match, on the first character of the header's opening word |
| Assembler.MethodEntry | utils/scout.js:71-78 | a method of a balanced class is dropped exactly when its header occurs nowhere in the class text. Otherwise its record sits at the class's start plus the match index, on the first character of the opening word |
| Assembler.MethodEntryUnbalanced | utils/scout.js:72-78 | a method of a class whose braces never balance is searched in the text before the class header, and a match there is placed at the class's start plus its index |
| Assembler.MetaOfOutcome | utils/scout.js:59-103 | `metainfo` fails exactly when some method's class header is missing from the normalised text, and then it names the class of the first such method |

## Left out

- `index.js` (argument handling, file reads and writes, HTML template patching, child processes) and
  `parse` (utils/scout.js:25-27, a file read and a call into Acorn) are I/O. The tree the parser builds is
  an input of `Assembler.Scout`, together with the file's text.
- The general JavaScript `RegExp` engine is not modelled. Only literals and the two blank gaps that
  `buildRegExp` emits are. Names are spliced into the source's regular expression unescaped, so a name
  with a regular-expression metacharacter (`$` is legal in identifiers) changes the source's expression.
  The model treats every name as literal text.
- JavaScript strings are sequences of UTF-16 code units; the model's strings are sequences of `char`.
  Offsets agree only where every character is one code unit.
- The brace scan of `extractClass` counts every `{` and `}`, including those inside strings, comments
  and templates. The model keeps that naive scan and does not model a syntax-aware one.
- The class-text cache is keyed by class name. A second class with the same name reuses the first class's
  text, as in the source. Keys are the plain name; a name that collides with an `Object.prototype`
  property (such as `constructor`) is not modelled as such.
- A class header with an `extends` clause never matches `class` Many name Any `{`. Its methods therefore
  make the scout fail with `ClassHeaderMissing`, as in the source, unless `class A {` for the same name A
  occurs elsewhere in the text.
- `Headers.HeaderPattern` and `Headers.BuildPattern` require a documentable node. `buildRegExp` on any
  other node leaves the empty expression, which no caller reaches.
- Headers.BuildMethodHeader: requires a setter to have a parameter, which the parser guarantees. The
  source would read `params[0]` of an empty list.
- Discoverer.Documentables: requires the tree to be traversable. This is the parser's guarantee that no
  popped node is `null`; the source would throw there.
- Assembler.Scout: requires `Walkable`, what Acorn guarantees of a Program: a class declaration's `id` is
  an identifier, class bodies hold well-shaped methods, and declarations hold no `null`.
- Assembler.Metainfo: requires every entity to be one `documentables` produces (`AllCollected`). That
  is the only caller in the source.
- The model proves the direction of the child table from a node kind to its children. It does not prove
  that a child list determines the node's kind.
- Of the generated `type` strings, only the table's kind names are modelled: `TypeName` gives the `type`
  property of each node kind and `GetChildren` switches on it.
- Visitor.GetChildren: a catch-all node that carries a name the table lists (say "Program") gets an
  Unknown sentinel. The source would follow the table and read the missing properties as `undefined`,
  which a Node cannot hold. The parser never builds such a node.
