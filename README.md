# TweakParser in Dafny

TweakParser reads *tweak* files. These are text files in which records declare typed
fields (called *flats*), records inherit from each other, and values refer to other
records by foreign key. The tool works in stages:

1. It **lexes** the text into tokens.
2. It **parses** the tokens into syntax trees with a recursive-descent parser over a token
   reader.
3. It **analyses** each tree into semantic nodes: records, flats and values, each file with
   its package context. It registers them in the packages of a global context, or in its
   free lists.
4. It **resolves references**, in three parts:
   - record inheritance, checked against subclass rules;
   - foreign-key targets found by name lookup across packages, `using` declarations and the
     base `RTDB` package;
   - value types reconciled with declared types.
5. It **sanity-checks** that everything is resolved.
6. It **flattens** a record. The record gets its ancestors' flats: a child's flat overrides
   or appends to the parent flat of the same name. Keys may be expanded inline, and
   circular expansion is cut short.

The project models each stage:

| Module | What it models |
|---|---|
| `Lexer`, `LexerProperties` | The lexer, as a method proved against a specification function, plus properties of that function. |
| `TokenReading` | The token reader, a class. |
| `SyntaxTree` | The syntax node class, and a value tree. |
| `Parsing` | The parser, a class that changes its reader. |
| `Names` | Splitting qualified names on `.`. |
| `SemanticNodes` | The semantic node graph: one arena of nodes plus the file roots, kept in class `Graph`. Queries are functions over that arena. |
| `Registry` | The global context, with its packages and name lookup. |
| `Analysis`, `FileAnalysis` | Analysis: syntax trees are turned into node trees, then placed into the arena. |
| `Resolution`, `ResolvePass`, `References` | Reference resolution. Each is a specification of what a resolved record, flat, scalar or array element is, plus the methods that rewrite the arena and are proved to meet it. |
| `Sanity` | The sanity check. |
| `Flattening` | Flattening: a merge specification with lemmas about it, and methods that copy nodes into the arena and are proved to meet it. |

`Wrappers` holds the `Option` and `Result` types. Errors carry a kind: `Fatal` for the
exceptions the tool throws, and `Circular` for the one failure that flattening swallows.

The model follows the code in these places where the documented design says otherwise:

- `MergeFrom` appends the child's own elements first and the parent's after.
- `ConsumeExpectedChoice` takes whatever token is current: its test of the token's type is never true, so it fails only when there is no token at all.
- Keyword tokens are typed `keyword-<word>` with an empty text.

## Model

| member | source | states |
|---|---|---|
| Lexer.NumberEnd | TweakParser/Lexer.cs:90-137 | a number ends at the first character that cannot continue it; a second `.` or a second `f` is an error |
| Lexer.IdentifierEnd | TweakParser/Lexer.cs:149-166 | an identifier ends at the first character that is not a letter, digit, `_` or `.` |
| Lexer.StringEnd | TweakParser/Lexer.cs:179-198 | on success the result is the position of a closing `"`; with no quote the result is an error |
| Lexer.Step | TweakParser/Lexer.cs:26-204 | one lexer step always moves strictly forward and stays within the input |
| Lexer.ScanNumber | TweakParser/Lexer.cs:90-147 | the number loop computes exactly `NumberEnd` and returns the text it read |
| Lexer.ScanIdentifier | TweakParser/Lexer.cs:149-177 | the identifier loop stops at `IdentifierEnd` and returns the text it read |
| Lexer.ScanString | TweakParser/Lexer.cs:179-198 | the string loop stops at the closing quote, and an unterminated string fails |
| Lexer.Lex | TweakParser/Lexer.cs:22-207 | the imperative lexer returns exactly the specification `LexSpec`: every token the input yields, then EOF |
| LexerProperties.WellFormedIsNotEndOfFile | TweakParser/Lexer.cs:28-205 | no well-formed token is an EOF token |
| LexerProperties.NumberEndReads | TweakParser/Lexer.cs:98-137 | every character consumed by a number is a number character |
| LexerProperties.IdentifierEndReads | TweakParser/Lexer.cs:154-166 | every character consumed by an identifier is an identifier character |
| LexerProperties.StringEndFindsFirstQuote | TweakParser/Lexer.cs:184-198 | a string ends at the FIRST quote after its opening quote |
| LexerProperties.NumberTokenWellFormed | TweakParser/Lexer.cs:139-146 | a number token is `number-float` exactly when its text holds `.` or `f`, else `number-integer` |
| LexerProperties.IdentifierTokenWellFormed | TweakParser/Lexer.cs:167-176 | an identifier lexes to `keyword-<word>` with empty text exactly when it is a keyword, else `identifier` |
| LexerProperties.StepWellFormed | TweakParser/Lexer.cs:26-204 | every token one step emits is well-formed |
| LexerProperties.LexFromWellFormed | TweakParser/Lexer.cs:22-207 | every token in a successful run is well-formed |
| LexerProperties.LexEndsWithOneEndOfFile | TweakParser/Lexer.cs:205-206 | a successful run ends with exactly one EOF token, and EOF appears nowhere else |
| LexerProperties.LexFromShift | TweakParser/Lexer.cs:22-207 | lexing `p + b` from where `b` starts gives the same tokens as lexing `b` alone |
| LexerProperties.StepShift | TweakParser/Lexer.cs:26-204 | one step on a shifted input gives the same token, shifted |
| LexerProperties.LexFromExtend | TweakParser/Lexer.cs:22-207 | when `a` is followed by white space in `w`, lexing `w` gives the tokens of `a` and then the tokens of `w` from the end of `a` |
| LexerProperties.LexFromSkipsSpace | TweakParser/Lexer.cs:200-203 | a space produces no token |
| LexerProperties.OneCharacterTokens | TweakParser/Lexer.cs:30-89 | a punctuation character gives its one-character token and lexing goes on after it; `+=` gives the append token; `+` alone and an unrecognised character are fatal |
| LexerProperties.UnrecognisedFirstFails | TweakParser/Lexer.cs:200-203 | an input that starts with an unrecognised character does not lex |
| LexerProperties.PunctuationAlone | TweakParser/Lexer.cs:30-77 | a lone punctuation character lexes to its token then EOF |
| LexerProperties.AppendOperatorAlone | TweakParser/Lexer.cs:78-88 | `+=` lexes to the append token then EOF, and `+` alone does not lex |
| LexerProperties.LexJoinedBySpace | TweakParser/Lexer.cs:22-207 | if two inputs lex, they still lex when joined by a space; the result is the first's tokens without its EOF, then the second's tokens |
| Names.Split | TweakParser/SemanticAnalyzer.cs:279-301 | splitting on `.` gives at least one piece |
| Names.SplitCount | TweakParser/SemanticAnalyzer.cs:279-301 | the number of pieces is the number of separators plus one |
| Names.SplitPiecesHaveNoSeparator | TweakParser/SemanticAnalyzer.cs:279-301 | no piece contains the separator |
| Names.JoinSplit | TweakParser/SemanticAnalyzer.cs:279-301 | joining the pieces with the separator gives back the name |
| Names.SplitWithoutSeparator | TweakParser/SemanticNode.cs:194-213 | a name without a dot splits into itself alone |
| Names.SplitQualified | TweakParser/SemanticAnalyzer.cs:182-199 | `package.name` splits into exactly the package and the name |
| TokenReading.AdvanceInRange | TweakParser/TokenReader.cs:30-46 | consuming never moves the index past the last token |
| TokenReading.AdvanceStaysIffLast | TweakParser/TokenReader.cs:30-46 | the index stays put exactly when it is already at the last token |
| TokenReading.AdvanceTimesSaturates | TweakParser/TokenReader.cs:30-46 | n consumptions move by n, saturating at the last token |
| TokenReading.TokenReader.constructor | TweakParser/TokenReader.cs:19-23 | a reader starts at index 0 over the given tokens |
| TokenReading.TokenReader.Reset | TweakParser/TokenReader.cs:25-28 | reset moves back to index 0 and keeps the tokens |
| TokenReading.TokenReader.Peek | TweakParser/TokenReader.cs:90-93 | peek succeeds exactly when there are tokens, returns the current token and moves nothing |
| TokenReading.TokenReader.HasNext | TweakParser/TokenReader.cs:95-98 | true exactly when consuming would move the index |
| TokenReading.TokenReader.Previous | TweakParser/TokenReader.cs:74-88 | returns the token before the index, and fails on an empty list or at the first token |
| TokenReading.TokenReader.Consume | TweakParser/TokenReader.cs:30-46 | returns the current token and advances one place, saturating at the last |
| TokenReading.TokenReader.ConsumeExpected | TweakParser/TokenReader.cs:48-58 | returns and consumes the token when its type is the expected one; otherwise fails without consuming |
| TokenReading.TokenReader.ConsumeExpectedChoice | TweakParser/TokenReader.cs:60-72 | returns and consumes whatever token is current, whatever its type; fails only when there is no token to peek at |
| SyntaxTree.ValueOrEmpty | TweakParser/SyntaxNode.cs:87-94 | the value when present, the empty string otherwise |
| SyntaxTree.RemoveFirstMultiset | TweakParser/SyntaxNode.cs:48-52 | removing a child takes out exactly one occurrence |
| SyntaxTree.RemoveFirstSplits | TweakParser/SyntaxNode.cs:48-52 | the first occurrence is the one removed, and the order of the others is kept |
| SyntaxTree.RemoveFirstUndoesAppend | TweakParser/SyntaxNode.cs:42-52 | removing a child that was just added (and was absent before) restores the list |
| SyntaxTree.SyntaxNode.constructor | TweakParser/SyntaxNode.cs:18-25 | the node gets the given parent, children and token data |
| SyntaxTree.SyntaxNode.FromTokens | TweakParser/SyntaxNode.cs:29-36 | a parentless, childless node carrying the given tokens |
| SyntaxTree.SyntaxNode.FromToken | TweakParser/SyntaxNode.cs:27 | a node built from one token takes its type and text |
| SyntaxTree.SyntaxNode.OfType | TweakParser/SyntaxNode.cs:38 | a node with a type and no value |
| SyntaxTree.SyntaxNode.OfTypeAndValue | TweakParser/SyntaxNode.cs:40 | a node with a type and a value |
| SyntaxTree.SyntaxNode.AddChild | TweakParser/SyntaxNode.cs:42-46 | appends the child and sets its parent to this node |
| SyntaxTree.SyntaxNode.RemoveChild | TweakParser/SyntaxNode.cs:48-52 | removes the first occurrence of the child |
| SyntaxTree.SyntaxNode.AddChildren | TweakParser/SyntaxNode.cs:54-61 | appends all the nodes in order and makes this node their parent |
| SyntaxTree.SyntaxNode.GetChildren | TweakParser/SyntaxNode.cs:63-66 | the children, unchanged |
| SyntaxTree.SyntaxNode.GetParent | TweakParser/SyntaxNode.cs:68-71 | the parent, unchanged |
| Parsing.KeywordWordOf | TweakParser/Lexer.cs:168-171 | the word recovered from a `keyword-<word>` token type is that word |
| Parsing.PrimitiveTypeKeywordWord | TweakParser/Parser.cs:489 | each primitive type keyword names a primitive type |
| Parsing.BooleanKeywordWord | TweakParser/Parser.cs:412 | the boolean keywords yield `true` or `false` |
| Parsing.VectorNodeShape | TweakParser/Parser.cs:498-546 | a vector node holds a type, a count and the named components x, y, z, a |
| Parsing.LeavesValues | TweakParser/Parser.cs:528-540 | component leaves carry their names in order and the values read |
| Parsing.FlatDefinitionNode | TweakParser/Parser.cs:350-391 | a flat definition node has a name, an optional type, an operator and a value |
| Parsing.Parser.constructor | TweakParser/Parser.cs:101-104 | the parser works over the given reader |
| Parsing.Parser.Match | TweakParser/Parser.cs:106-113 | true exactly when the current token has the given type; nothing is consumed |
| Parsing.Parser.MatchAny | TweakParser/Parser.cs:115-123 | true exactly when the current token has one of the given types |
| Parsing.Parser.Parse | TweakParser/Parser.cs:125-135 | its result is `RootFrom` of the token list; on success a root node, with the reader at EOF |
| Parsing.Parser.ParseRoot | TweakParser/Parser.cs:137-188 | its result is `RootFrom` of the token list: the top-level items in source order under a root, reading up to EOF |
| Parsing.Parser.ParsePackage | TweakParser/Parser.cs:190-200 | result and final cursor are those of `PackageFrom` from the starting cursor; when not at `package`: nothing and no move; otherwise a `package` node named by the identifier that follows |
| Parsing.Parser.ParseUsingDeclaration | TweakParser/Parser.cs:202-221 | result and final cursor are those of `UsingFrom` from the starting cursor; when not at `using`: nothing and no move; otherwise a using node over the package list that follows |
| Parsing.Parser.PackageListNames | TweakParser/Parser.cs:223-251 | every node of a package list is a `package-name` leaf |
| Parsing.Parser.ParsePackageList | TweakParser/Parser.cs:223-251 | result and final cursor are those of `PackageListFrom` from the starting cursor; reads identifiers separated by commas, and consumes exactly 2n-1 tokens for n names |
| Parsing.Parser.ParseRecord | TweakParser/Parser.cs:253-285 | result and final cursor are those of `RecordFrom` from the starting cursor; when not at an identifier: nothing and no move; otherwise a record node named by that identifier |
| Parsing.Parser.ParseRecordInheritance | TweakParser/Parser.cs:287-298 | result and final cursor are those of `InheritanceFrom` from the starting cursor; when not at `:`: nothing; otherwise a `record-inheritance` leaf holding the parent's name |
| Parsing.Parser.ParseFlatList | TweakParser/Parser.cs:300-342 | result and final cursor are those of `FlatListFrom` from the starting cursor; when not at `{`: nothing; otherwise a flat-list node whose children are flat definitions |
| Parsing.Parser.ParseDefinitions | TweakParser/Parser.cs:325-342 | result and final cursor are those of `DefinitionsFrom` from the starting cursor: the definitions in source order, stopping on `}`; every failure is a parse error |
| Parsing.Parser.ParseNextDefinition | TweakParser/Parser.cs:327-341 | fails at EOF or on a token that starts no definition; otherwise moves forward and yields a flat definition, and the definitions from the old cursor are it followed by those from the new one |
| Parsing.Parser.ParseFlatDefinition | TweakParser/Parser.cs:350-391 | result and final cursor are those of `FlatDefinitionFrom` from the starting cursor; a successful parse yields a well-formed flat definition and moves forward |
| Parsing.Parser.ParseFlatValue | TweakParser/Parser.cs:393-453 | result and final cursor are those of `FlatValueFrom` from the starting cursor; a successful parse yields a value node, and no match means no move |
| Parsing.Parser.ParseFlatType | TweakParser/Parser.cs:455-474 | result and final cursor are those of `FlatTypeFrom` from the starting cursor; yields a single or array flat type, and no match means no move |
| Parsing.Parser.ParseFlatSingleType | TweakParser/Parser.cs:476-496 | result and final cursor are those of `SingleTypeFrom` from the starting cursor; nothing exactly when not at `fk` or a primitive type keyword; otherwise a single type node |
| Parsing.Parser.ParseVector | TweakParser/Parser.cs:498-546 | result and final cursor are those of `VectorFrom` from the starting cursor; nothing exactly when not at `(`; otherwise a well-formed vector node |
| Parsing.Parser.ParseMoreComponent | TweakParser/Parser.cs:515-523 | reads an optional further `, n` component exactly as `MoreComponentFrom` does: its text and the cursor after it, or nothing and no move when no comma is current |
| Parsing.Parser.ParseFlatValueList | TweakParser/Parser.cs:548-573 | result and final cursor are those of `ValueListFrom` from the starting cursor; nothing exactly when not at `[`; otherwise a `value-list` node |
| Parsing.Parser.ParseFlatValueListValue | TweakParser/Parser.cs:575-598 | result and final cursor are those of `ValuesFrom` from the starting cursor; yields at least one value, each a value node |
| Parsing.Parser.ParseSpecialTag | TweakParser/Parser.cs:600-611 | result and final cursor are those of `SpecialTagFrom` from the starting cursor; nothing exactly when not at `[`; otherwise a `special-tag` leaf named by the identifier |
| Parsing.Parser.ParseTopLevel | TweakParser/Parser.cs:144-186 | result and final cursor are those of `TopLevelFrom`: package, using, record, then flat definition, tried in that order |
| Parsing.Parser.ParseNamedDefinition | TweakParser/Parser.cs:360-391 | result and final cursor are those of `NamedDefinitionFrom`: name, operator, value and `;` after the optional type |
| Parsing.PackageFrom | TweakParser/Parser.cs:190-200 | declines without moving unless at `package`; otherwise a `package` leaf, and the cursor moves forward |
| Parsing.InheritanceFrom | TweakParser/Parser.cs:287-298 | declines without moving unless at `:`; otherwise moves forward |
| Parsing.SpecialTagFrom | TweakParser/Parser.cs:600-611 | declines without moving unless at `[`; otherwise a `special-tag` leaf |
| Parsing.PackageListFrom | TweakParser/Parser.cs:223-251 | declines without moving unless at an identifier; otherwise at least one `package-name` leaf |
| Parsing.UsingFrom | TweakParser/Parser.cs:202-221 | declines without moving unless at `using`; otherwise a using declaration |
| Parsing.SingleTypeFrom | TweakParser/Parser.cs:476-496 | declines without moving unless at `fk` or a primitive type keyword; otherwise a single flat type |
| Parsing.FlatTypeFrom | TweakParser/Parser.cs:455-474 | declines without moving when no single type starts; otherwise a flat type |
| Parsing.MoreComponentFrom | TweakParser/Parser.cs:514-523 | reads an optional `, n` component: none leaves the cursor where it was |
| Parsing.VectorFrom | TweakParser/Parser.cs:498-546 | declines without moving unless at `(`; otherwise a well-formed vector node |
| Parsing.FlatListFrom | TweakParser/Parser.cs:300-342 | declines without moving unless at `{`; otherwise a flat list |
| Parsing.DefinitionsFrom | TweakParser/Parser.cs:326-343 | succeeds only at the closing `}`, every child a flat definition; failures are fatal |
| Parsing.FlatDefinitionFrom | TweakParser/Parser.cs:350-391 | a special tag, or a typed or untyped definition; yields only well-formed flat definitions |
| Parsing.NamedDefinitionFrom | TweakParser/Parser.cs:360-391 | yields only well-formed flat definitions |
| Parsing.FlatValueFrom | TweakParser/Parser.cs:393-453 | declines without moving when no value starts; otherwise a value node |
| Parsing.ValueListFrom | TweakParser/Parser.cs:548-573 | declines without moving unless at `[`; otherwise a `value-list` value |
| Parsing.ValuesFrom | TweakParser/Parser.cs:575-598 | declines without moving when no value starts; otherwise one or more value nodes |
| Parsing.RecordFrom | TweakParser/Parser.cs:253-285 | declines without moving unless at an identifier; otherwise a record named by it |
| Parsing.TopLevelFrom | TweakParser/Parser.cs:144-186 | yields only top-level items |
| Parsing.ItemsFrom | TweakParser/Parser.cs:144-186 | on success every item is a top-level item |
| Parsing.RootFrom | TweakParser/Parser.cs:137-188 | on success a root node |
| Parsing.ItemsFromFails | TweakParser/Parser.cs:178-181 | where no top-level item can be read, the items fail |
| ParserProperties.StrayTopLevelTokenFails | TweakParser/Parser.cs:144-181 | a token that starts no package, using, record or flat definition makes the rest of the input fail |
| ParserProperties.StrayFirstTokenFails | TweakParser/Parser.cs:137-181 | a file whose first token starts no item does not parse |
| ParserProperties.UntypedTopLevelDefinitionFails | TweakParser/Parser.cs:253-275 | an identifier at top level starts a record, so `name = value;` there fails |
| ParserProperties.RootChildrenInOrder | TweakParser/Parser.cs:144-187 | the root's children are the items in source order |
| ParserProperties.PackageThenUsing | TweakParser/Parser.cs:137-221 | `package Base using Lib` parses to the package leaf, then the using declaration |
| ParserProperties.FlatDefinitionReadsTokens | TweakParser/Parser.cs:350-391 | a definition's name, operation (`=` assigns, `+=` appends) and value come from the tokens after its optional type |
| ParserProperties.FlatDefinitionMissingOperatorFails | TweakParser/Parser.cs:363-388 | a name followed by anything but `=` or `+=` is an error |
| ParserProperties.FlatDefinitionMissingSemicolonFails | TweakParser/Parser.cs:368 | a value not followed by `;` fails |
| ParserProperties.TypedAssignment | TweakParser/Parser.cs:350-391 | `int Count = 5;` is a typed assignment of the integer 5 |
| ParserProperties.ForeignKeyTypeTarget | TweakParser/Parser.cs:478-488 | `fk<Name>` is a foreign-key type naming `Name` |
| ParserProperties.PrimitiveSingleType | TweakParser/Parser.cs:489-493 | a primitive type keyword gives the leaf holding the type's name |
| ParserProperties.ArrayTypeWraps | TweakParser/Parser.cs:455-474 | a single type followed by `[]` is wrapped in an `array` flat type |
| ParserProperties.ArrayTypeNeedsBrackets | TweakParser/Parser.cs:455-474 | without `[` the single type is the flat type; `[` without `]` fails |
| ParserProperties.FlatValueLeaves | TweakParser/Parser.cs:397-421 | each single-token value is a leaf holding the token's text |
| ParserProperties.FlatValueDeclines | TweakParser/Parser.cs:393-453 | a flat value declines exactly when its first token can start none |
| ParserProperties.InlineAndForeignKeyValues | TweakParser/Parser.cs:424-437 | `{ ... } : Name` is a foreign-key value naming `Name`; `{ ... }` alone is an inline value |
| ParserProperties.VectorReadsComponents | TweakParser/Parser.cs:498-546 | the components of a two-, three- or four-component vector are the tokens at odd offsets, whatever their types |
| ParserProperties.ValueListElements | TweakParser/Parser.cs:548-573 | a value list holds the values between its brackets in order; `[ ]` is empty |
| ParserProperties.ValuesInOrder | TweakParser/Parser.cs:575-598 | the values of a list are the first value read, then those after the comma |
| ParserProperties.ValuesTrailingCommaFails | TweakParser/Parser.cs:586-593 | a comma with no value after it fails |
| ParserProperties.ValuesDecline | TweakParser/Parser.cs:577-582 | a list whose first token can start no value yields nothing and does not move |
| ParserProperties.ValuesAfterCommaFail | TweakParser/Parser.cs:586-593 | a value and a comma with no further values after it fail |
| ParserProperties.RecordReadsTokens | TweakParser/Parser.cs:253-285 | a record is named by its identifier; a parent before the flat list is its first child, one after is its last |
| ParserProperties.RecordWithoutFlatListFails | TweakParser/Parser.cs:271-275 | a record name followed by no `{` fails |
| ParserProperties.UnclosedFlatListFails | TweakParser/Parser.cs:326-331 | a flat list never closed fails |
| ParserProperties.DefinitionsAtEofFail | TweakParser/Parser.cs:328-331 | at EOF the definitions of a flat list fail |
| SemanticNodes.NewRecord | TweakParser/SemanticNode.cs:167-177 | a new record has the given name and parent name, is unresolved and has no children |
| SemanticNodes.NewValue | TweakParser/SemanticNode.cs:281-289 | a new value has the given type, array flag and syntax nodes, and no key |
| SemanticNodes.FlatsOf | TweakParser/SemanticNode.cs:179-192 | the flats of a record are exactly its flat children, in order |
| SemanticNodes.FlatsOfAppend | TweakParser/SemanticNode.cs:179-192 | the flats of concatenated children are the concatenated flats |
| SemanticNodes.FirstFlatNamed | TweakParser/SemanticNode.cs:215-230 | the result, if any, is a flat child with that name |
| SemanticNodes.FirstFlatNamedAppend | TweakParser/SemanticNode.cs:215-230 | appending a child changes the answer only when no earlier flat had the name |
| SemanticNodes.FirstFlatNamedPrefix | TweakParser/SemanticNode.cs:215-230 | the answer is the first child with the name |
| SemanticNodes.BaseName | TweakParser/SemanticNode.cs:194-213 | no name gives none; a name without a dot is its own base name; for `P.N` the code returns `P`, the piece before the dot; two or more dots are an error |
| SemanticNodes.QualifiedPieces | TweakParser/SemanticNode.cs:194-213 | a name with exactly one dot splits into package and base |
| SemanticNodes.ScalarVectorPartition | TweakParser/SemanticNode.cs:297-325 | no type is both scalar and vector |
| SemanticNodes.ArrayLength | TweakParser/SemanticNode.cs:291-295 | a non-array has length 0; an array has the number of its children |
| SemanticNodes.ReadScalarData | TweakParser/SemanticNode.cs:327-339 | succeeds exactly for scalar types, and gives the first syntax node's text, or the empty string when there is none |
| SemanticNodes.VectorWidth | TweakParser/SemanticNode.cs:341-376 | every vector type has between 2 and 4 components |
| SemanticNodes.Components | TweakParser/SemanticNode.cs:341-376 | a success gives exactly the requested number of component texts |
| SemanticNodes.VectorData | TweakParser/SemanticNode.cs:341-376 | succeeds only for vector types, with as many components as the type's width |
| SemanticNodes.VectorRoundTrip | TweakParser/SemanticNode.cs:341-376 | reading a vector the parser built gives back the component values it read |
| SemanticNodes.ComponentsOfLeaves | TweakParser/SemanticNode.cs:341-376 | components are read by name, x, y, z then a |
| SemanticNodes.TwoComponentText | TweakParser/SemanticNode.cs:383-391 | two components render as `( x, y )` |
| SemanticNodes.ThreeComponentText | TweakParser/SemanticNode.cs:383-391 | three components render as `( x, y, z )` |
| SemanticNodes.FourComponentText | TweakParser/SemanticNode.cs:383-391 | four components render as `( x, y, z, a )` |
| SemanticNodes.ComponentsMissing | TweakParser/SemanticNode.cs:341-376 | a missing component makes the read fail |
| SemanticNodes.StringValue | TweakParser/SemanticNode.cs:383-391 | an array prints as `{Array}`, a scalar as its text, a key as `FK:` and its name, an inline record as `FK:{Unresolved)}`, an unresolved or identifier value as `{Unresolved}`; a vector prints exactly when its components can be read, as `( c1, c2, ... )` |
| SemanticNodes.TweakFormatValue | TweakParser/SemanticNode.cs:393-401 | succeeds exactly when `StringValue` does; strings are quoted |
| SemanticNodes.CheckTypeConsistency | TweakParser/SemanticNode.cs:559-603 | succeeds exactly when the flat is untyped, or the array flags agree and the value's type is one the flat type accepts |
| SemanticNodes.GetRootNode | TweakParser/SemanticNode.cs:106-120 | a node directly under file root k gives k, and any answer is an existing root |
| SemanticNodes.GetRootPackageContext | TweakParser/SemanticNode.cs:122-139 | succeeds exactly when the root is found, and gives that root's context |
| SemanticNodes.ParentChainFindsRoot | TweakParser/SemanticNode.cs:106-120 | any parent chain that ends at a file root is the one the walk finds |
| SemanticNodes.Graph.AddNode | TweakParser/SemanticNode.cs:53-56 | allocating a node appends it, with its children, parent and type, at the next index; nothing else changes |
| SemanticNodes.Graph.AddRoot | TweakParser/SemanticNode.cs:147-152 | appends an empty root with the given package context |
| SemanticNodes.Graph.AddRootChild | TweakParser/SemanticNode.cs:63-67 | appends the child to the root, and the child's parent becomes that root |
| SemanticNodes.Graph.AddChild | TweakParser/SemanticNode.cs:63-67 | appends the child, and its parent becomes this node; nothing else changes |
| SemanticNodes.Graph.AddChildRange | TweakParser/SemanticNode.cs:69-73 | appends all the children in order and re-parents each of them; every other node is unchanged |
| SemanticNodes.Graph.NewFlat | TweakParser/SemanticNode.cs:467-478 | creates a flat whose one child is its value, and makes the flat that value's parent |
| SemanticNodes.Graph.GetFlats | TweakParser/SemanticNode.cs:179-192 | the loop returns `FlatsOf` of the record's children |
| SemanticNodes.Graph.HasFlatWithName | TweakParser/SemanticNode.cs:215-230 | the loop returns the first flat child with the name |
| SemanticNodes.Graph.ReadVectorData | TweakParser/SemanticNode.cs:341-376 | the loop returns `VectorData` |
| SemanticNodes.Graph.MergeFrom | TweakParser/SemanticNode.cs:605-631 | different names fail; `=` keeps the flat; `+=` on a non-array fails; `+=` on an array appends the parent's elements after the child's own |
| Registry.FindPackage | TweakParser/SemanticAnalyzer.cs:66-79 | a found index holds a package with that name |
| Registry.WithPackage | TweakParser/SemanticAnalyzer.cs:66-79 | afterwards the package exists; an existing one is kept and a new one is appended |
| Registry.WithPackageIdempotent | TweakParser/SemanticAnalyzer.cs:66-79 | getting a package twice is the same as getting it once |
| Registry.WithPackageKeepsOthers | TweakParser/SemanticAnalyzer.cs:66-79 | getting a package does not change where other packages are found |
| Registry.FindPackageExtended | TweakParser/SemanticAnalyzer.cs:66-79 | appending packages does not move existing ones |
| Registry.FirstRecordNamed | TweakParser/SemanticAnalyzer.cs:182-199 | the answer is the first record in the list whose name matches |
| Registry.BaseMatch | TweakParser/SemanticAnalyzer.cs:204-233 | a record matches when its base name equals the target; a malformed name is an error |
| Registry.FirstWithBaseName | TweakParser/SemanticAnalyzer.cs:204-233 | the first record that matches or errs decides the answer |
| Registry.SearchByBaseName | TweakParser/SemanticAnalyzer.cs:204-233 | the candidate packages are searched in order, and the first answer wins |
| Registry.LookupCandidates | TweakParser/SemanticAnalyzer.cs:204-233 | the candidates are `RTDB`, then the usings, then the file's own package |
| Registry.LookupRecordType | TweakParser/SemanticAnalyzer.cs:175-235 | no name, or a plain name with no context, gives none; any answer is a record (the qualified, plain and malformed cases are the lemmas below) |
| Registry.LookupMalformed | TweakParser/SemanticAnalyzer.cs:175-235 | a name with more than one dot is an error |
| Registry.LookupQualified | TweakParser/SemanticAnalyzer.cs:182-199 | a qualified lookup searches the named package only |
| Registry.LookupUnqualified | TweakParser/SemanticAnalyzer.cs:204-233 | a plain lookup is the base-name search over the candidates |
| Registry.LookupFindsRegistered | TweakParser/SemanticAnalyzer.cs:175-235 | a found record is registered in some package |
| Registry.LookupStable | TweakParser/SemanticAnalyzer.cs:175-235 | adding empty packages does not change any lookup |
| Registry.PackageOf | TweakParser/SemanticAnalyzer.cs:106-129 | the package, if any, whose records hold the record |
| Registry.FullyQualifiedNameOf | TweakParser/SemanticAnalyzer.cs:106-129 | a registered record's name is qualified with its package; a free one keeps its name |
| Registry.RegisteredRecordQualifiedName | TweakParser/SemanticAnalyzer.cs:106-129 | once registered in package `p`, a record is named `p.<base>` |
| Registry.QualifyIn | TweakParser/SemanticAnalyzer.cs:131-173 | an answer is a candidate package that exists and holds a record with that base name |
| Registry.QualifyName | TweakParser/SemanticAnalyzer.cs:131-173 | a dotted name is returned as given; a plain one becomes `c.name` for a candidate package `c`, or stays as given only when a free record has that name |
| Registry.QualifiedNameResolves | TweakParser/SemanticAnalyzer.cs:131-235 | a plain name qualified with a package this way is looked up, with no context, to a record of that name |
| Registry.ParentRecord | TweakParser/SemanticAnalyzer.cs:237-256 | a record's parent is found by looking up its parent name |
| Registry.FindRootInheritedFlat | TweakParser/SemanticAnalyzer.cs:237-256 | any answer is a typed flat with that name, and a record's own typed flat of that name is the answer |
| Registry.FindRootInheritedFlatStable | TweakParser/SemanticAnalyzer.cs:237-256 | adding empty packages does not change the root-flat search |
| Registry.FindRootInheritedFlatFollowsChain | TweakParser/SemanticAnalyzer.cs:237-256 | along a parent chain in which no record defines the flat, the answer is that of the chain's end |
| Registry.DeclarationPackageName | TweakParser/SemanticAnalyzer.cs:81-104 | no name gives none; `p.n` declares into `p`; a plain name declares into the file's package |
| Registry.DeclarationPackageQualified | TweakParser/SemanticAnalyzer.cs:81-104 | a qualified name declares into its own package |
| Registry.GlobalContext.constructor | TweakParser/SemanticAnalyzer.cs:57-64 | an empty context over the graph |
| Registry.GlobalContext.GetPackage | TweakParser/SemanticAnalyzer.cs:66-79 | the loop gives the index of the named package, creating it when missing |
| Registry.GlobalContext.ResolveDeclarationPackage | TweakParser/SemanticAnalyzer.cs:81-104 | errs exactly when `DeclarationPackageName` does, and gets the declaration's package |
| Registry.GlobalContext.ResolveRecordType | TweakParser/SemanticAnalyzer.cs:175-235 | returns `LookupRecordType` of the packages as they were; only empty packages are added |
| Registry.GlobalContext.ResolveQualified | TweakParser/SemanticAnalyzer.cs:182-199 | the qualified branch returns the lookup's answer |
| Registry.GlobalContext.ResolveUnqualified | TweakParser/SemanticAnalyzer.cs:204-233 | the candidate loop returns the base-name search |
| Analysis.StringToFlatType | TweakParser/SemanticAnalyzer.cs:489-560 | no string gives Unresolved, and a recognised string never does; the round-trip lemmas below give the mapping |
| Analysis.KeywordRoundTrip | TweakParser/SemanticAnalyzer.cs:489-560 | every flat type's declaration keyword maps back to that type |
| Analysis.ValueNodeTypeRoundTrip | TweakParser/SemanticAnalyzer.cs:489-560 | every flat type's value node type maps back to that type |
| Analysis.TypeNamesRecognised | TweakParser/SemanticAnalyzer.cs:489-560 | every recognised string is a declaration keyword or a value node type |
| Analysis.StaticPackageName | TweakParser/SemanticAnalyzer.cs:406-425 | the piece before the dot of a `p.n` name; the empty string for no name, a plain name, or more than one dot |
| Analysis.FullySpecifiedName | TweakParser/SemanticAnalyzer.cs:427-445 | a plain name is prefixed with the file's package, if it has one |
| Analysis.FullySpecifiedNameDeclaresIntoFilePackage | TweakParser/SemanticAnalyzer.cs:81-104 | a name prefixed this way declares into the file's package |
| Analysis.ListTypeUniform | TweakParser/SemanticAnalyzer.cs:705-712 | an empty list is Unresolved; a list of one type has that type |
| Analysis.ListTypeMixed | TweakParser/SemanticAnalyzer.cs:683-704 | a mixed list analyses only when its types all lie within {String, ForeignKey, InlineRecord} or all within {Integer, Float}; numbers give Float; references without a key give ForeignKey with no name; with a key, ForeignKey named by the first `value-foreignkey` element, and an error when there is none |
| Analysis.AnalyzeValue | TweakParser/SemanticAnalyzer.cs:661-754 | a `value-list` becomes an array whose type and key come from `ListType` of its elements' types, and whose elements are its values analysed in order (see `ListValueAnalyzed`); any other value takes the flat type its node type maps to, and an inline or keyed value holds the analysis of its flat list, failing without one; a key value's key is the node's text; the result keeps its syntax node |
| Analysis.AnalyzeElements | TweakParser/SemanticAnalyzer.cs:739-750 | one analysed value per element of the list, each a value node |
| Analysis.ElementsAnalyzed | TweakParser/SemanticAnalyzer.cs:742-750 | element `j` is the analysis of the list's `j`th value |
| Analysis.ListValueAnalyzed | TweakParser/SemanticAnalyzer.cs:661-754 | an analysed value list has the type and key `ListType` gives, and its elements are its values analysed one by one, in order |
| Analysis.AnalyzeFlatList | TweakParser/SemanticAnalyzer.cs:756-768 | every item is a well-kinded flat, and there is at most one per syntax child (special tags give none) |
| Analysis.OperatorOf | TweakParser/SemanticAnalyzer.cs:562-659 | succeeds exactly for `append` and `assign` |
| Analysis.AnalyzeFlatDefinition | TweakParser/SemanticAnalyzer.cs:562-659 | a special tag gives nothing; anything else gives a flat in the given context named by its name node, whose declared type, array flag and key name come from its type node, whose operator comes from its operation node and whose value is the analysis of its first value node; a missing name, operation or value is an error |
| Analysis.AnalyzeRecord | TweakParser/SemanticAnalyzer.cs:447-487 | no parent: the name is fully specified (an unnamed record that is not top-level is an error); one parent: kept as written; two or more: error |
| Analysis.ParentlessRecordsAreGroups | TweakParser/SemanticAnalyzer.cs:457-470 | a parentless record that is not top-level is a group |
| Analysis.TreeAt | TweakParser/SemanticAnalyzer.cs:447-768 | reading back the arena at a node gives a tree of the same kind |
| Analysis.Materialize | TweakParser/SemanticAnalyzer.cs:447-768 | writing a tree into the arena keeps the graph valid, and reading back gives the tree |
| Analysis.MaterializeAll | TweakParser/SemanticAnalyzer.cs:756-768 | writing a list of trees gives nodes that read back as those trees |
| FileAnalysis.RecordHomeIsDeclarationPackage | TweakParser/SemanticAnalyzer.cs:272-312 | a record's registration fails exactly when its declaration package does; `p.n` goes to `p` renamed `n`; a plain name goes to the file's package, or to the free records when the file has none |
| FileAnalysis.FlatHomeIsDeclarationPackage | TweakParser/SemanticAnalyzer.cs:314-339 | a top flat always registers into a package: its declaration package; with no package on the name nor on the file it is an error |
| FileAnalysis.RegisterRecord | TweakParser/SemanticAnalyzer.cs:272-312 | errs exactly when the home errs; otherwise the record is renamed and added to its package, or to the free records |
| FileAnalysis.RegisterTopFlat | TweakParser/SemanticAnalyzer.cs:314-339 | errs exactly when the home errs; otherwise the flat joins its package's flats |
| FileAnalysis.UsingNames | TweakParser/SemanticAnalyzer.cs:364-375 | the usings are exactly the named package-name children |
| FileAnalysis.FileContext | TweakParser/SemanticAnalyzer.cs:349-375 | errs exactly when there is more than one package declaration |
| FileAnalysis.FileTrees | TweakParser/SemanticAnalyzer.cs:378-395 | succeeds exactly when every record and every top flat analyses |
| FileAnalysis.AddFile | TweakParser/SemanticAnalyzer.cs:402 | succeeds exactly when the file name is new, and records the file's root |
| FileAnalysis.AnalyzeContents | TweakParser/SemanticAnalyzer.cs:376-395 | succeeds exactly when the trees analyse, and the root then holds them; the registry is then the old one with each of the file's records and top flats filed in order (`FileAll` of `FileFilings`); the free flats never change |
| FileAnalysis.RecordTrees | TweakParser/SemanticAnalyzer.cs:378-384 | succeed exactly when every record of the file analyses |
| FileAnalysis.TopFlatTrees | TweakParser/SemanticAnalyzer.cs:386-395 | succeed exactly when every top-level flat analyses; special tags give no tree |
| FileAnalysis.FileKeeps | TweakParser/SemanticAnalyzer.cs:272-339 | registering one more declaration keeps every declaration registered before it |
| FileAnalysis.FiledFound | TweakParser/SemanticAnalyzer.cs:376-395 | after a file's declarations are registered, each is found in the package it was filed under, or among the free records |
| FileAnalysis.AddRecord | TweakParser/SemanticAnalyzer.cs:379-384 | builds record `s`, registers it and adds it as the root's next child; fails exactly when its tree or its home fails |
| FileAnalysis.AnalyzeRecords | TweakParser/SemanticAnalyzer.cs:378-384 | adds the file's records in order, stopping at the first that fails; succeeds exactly when `RecordTrees` does, and the registry is then filed with each record |
| FileAnalysis.AddTopFlat | TweakParser/SemanticAnalyzer.cs:386-395 | a special tag adds nothing; otherwise the flat becomes the root's next child and is filed in its package; the free flats never change |
| FileAnalysis.PlaceTopFlat | TweakParser/SemanticAnalyzer.cs:393-394 | an analysed flat succeeds exactly when its home resolves; it becomes the root's next child, reads back renamed to that home, and is filed in that package; the free flats never change |
| FileAnalysis.AnalyzeTopFlats | TweakParser/SemanticAnalyzer.cs:386-395 | adds the top-level flats in order, stopping at the first that fails; succeeds exactly when `TopFlatTrees` does, and the registry is then filed with each flat |
| FileAnalysis.AddNextTopFlat | TweakParser/SemanticAnalyzer.cs:386-395 | one step of that loop: the trees read back and the registry filings grow by flat `j` |
| FileAnalysis.Analyze | TweakParser/SemanticAnalyzer.cs:342-404 | succeeds exactly when the context and trees analyse and the file name is new; on success one new root holds the file's context and trees, the file is recorded, and every record and top flat is filed in the registry in order; on failure no file is recorded |
| Sanity.CheckFlat | TweakParser/SemanticAnalyzer.cs:1327-1345 | a passing flat has a declared type, a named and resolved key when it is a foreign key, and a sane value |
| Sanity.CheckValue | TweakParser/SemanticAnalyzer.cs:1347-1389 | a passing value's keys agree with its type: a string names a record exactly when it refers to one, a key value names and refers to one, a non-empty string under a key flat names one; its flat and value children pass too |
| Sanity.CheckRecord | TweakParser/SemanticAnalyzer.cs:1311-1325 | passes exactly when the record is marked resolved, its parent is found when it names one, and all its flats pass |
| Sanity.CheckRecords | TweakParser/SemanticAnalyzer.cs:1311-1325 | passes exactly when every record passes |
| Sanity.CheckFlats | TweakParser/SemanticAnalyzer.cs:1327-1345 | passes exactly when every flat passes |
| Sanity.SanityCheck | TweakParser/SemanticAnalyzer.cs:1282-1309 | with no files it passes; otherwise it passes exactly when every free and registered record and flat passes |
| Resolution.ScalarCast | TweakParser/SemanticAnalyzer.cs:903-952 | the string-to-key cast happens exactly when a string value meets a foreign-key flat and the types or array flags differ |
| Resolution.ScalarCastAgreesWithConsistency | TweakParser/SemanticAnalyzer.cs:864-952 | a cast succeeds exactly when the types are equal or already consistent, or string meets key, or float meets integer; a retagged value is then type-consistent |
| Resolution.ElementCast | TweakParser/SemanticAnalyzer.cs:1004-1091 | array elements never take the string-to-key cast |
| Resolution.ElementCastOfRetypedArray | TweakParser/SemanticAnalyzer.cs:1074-1091 | an element fits its array exactly when its type equals the flat's, both are numeric, or a string meets CName, ResRef or LocKey; EulerAngles and Quaternion arrays accept only their own type |
| Resolution.InheritFlat | TweakParser/SemanticAnalyzer.cs:820-844 | with no root flat the flat must declare its type and is kept; with one it fails when assigning a non-array over an array, giving an array value to a non-array, or declaring a different type, and otherwise takes the root flat's type, array flag and key |
| Resolution.InheritFlatDeclared | TweakParser/SemanticAnalyzer.cs:820-844 | an inherited flat is declared, and inheriting twice changes nothing more |
| Resolution.NextAncestor | TweakParser/SemanticAnalyzer.cs:1180-1248 | the next record up the chain: the resolved parent when there is one, else the looked-up one |
| Resolution.AncestorsAreSuperclasses | TweakParser/SemanticAnalyzer.cs:1180-1248 | every record on a parent chain is a superclass of the chain's start |
| Resolution.ParentlessSubclass | TweakParser/SemanticAnalyzer.cs:1188-1230 | a parentless record is a subclass of another exactly when the pair is in the fixed list of special cases |
| Resolution.ResolvedRecord | TweakParser/SemanticAnalyzer.cs:1106-1178 | errs exactly when a parentless record is neither in RTDB nor top-level, or a named parent is not found; otherwise the record points to the looked-up parent, keeps its shape and is sane |
| Resolution.FlatResolvedExcludesFails | TweakParser/SemanticAnalyzer.cs:810-1103 | a flat cannot both resolve and fail |
| Resolution.ElementResolvedExcludesFails | TweakParser/SemanticAnalyzer.cs:984-1102 | an element cannot both resolve and fail |
| Resolution.ScalarReconciledExcludesFails | TweakParser/SemanticAnalyzer.cs:876-952 | a scalar value that reconciles, with its own key a subclass of the flat's, is not one that fails (`ScalarFails`) |
| Resolution.LookupReshaped | TweakParser/SemanticAnalyzer.cs:175-235 | resolution writes do not change any lookup |
| Resolution.IsSubclassOfStable | TweakParser/SemanticAnalyzer.cs:1180-1248 | adding empty packages does not change the subclass relation |
| ResolvePass.ResolveRecord | TweakParser/SemanticAnalyzer.cs:1106-1178 | on success the record matches `ResolvedRecord` and its flats are sane; errs whenever `ResolvedRecord` errs |
| ResolvePass.ResolveParent | TweakParser/SemanticAnalyzer.cs:1106-1178 | a parent exactly when one is named, found by lookup |
| ResolvePass.ResolveKeyTarget | TweakParser/SemanticAnalyzer.cs:846-862 | the key target is the lookup's answer; it errs when the lookup finds nothing |
| ResolvePass.ResolveSubclassKey | TweakParser/SemanticAnalyzer.cs:879-901 | on success the value's key is found and is a subclass of the flat's key; a key that denotes no record, or a record that is not a subclass, fails |
| ResolvePass.ResolveInheritedKey | TweakParser/SemanticAnalyzer.cs:820-862 | a parent flat's unresolved key is resolved by lookup |
| ResolvePass.ResolveFlat | TweakParser/SemanticAnalyzer.cs:810-1103 | a flat on the stack is skipped; on success the flat is sane and resolved as specified; it errs whenever the specification says it fails |
| ResolvePass.ResolveFlatKey | TweakParser/SemanticAnalyzer.cs:820-872 | the flat inherits from its root flat and its key is found by lookup |
| ResolvePass.ResolveOwnKey | TweakParser/SemanticAnalyzer.cs:846-862 | the flat's own key is filled with the lookup's answer |
| ResolvePass.ReconcileScalar | TweakParser/SemanticAnalyzer.cs:876-952 | the reconciled scalar matches the specification, and its own key is a subclass of the flat's key; it fails whenever the type does not fit, a string key is malformed, or the own key denotes no record or a record that is not a subclass (`ScalarFails`) |
| ResolvePass.ResolveScalar | TweakParser/SemanticAnalyzer.cs:876-983 | the scalar value is resolved as specified, its own key is a subclass of the flat's key, and inline children are sane; it fails whenever `ScalarFails` holds |
| ResolvePass.ResolveArray | TweakParser/SemanticAnalyzer.cs:984-1102 | a non-array value under an array flat errs; on success every element is resolved as specified |
| ResolvePass.ReconcileElement | TweakParser/SemanticAnalyzer.cs:1004-1091 | the element matches the specification, and errs when it fails |
| ResolvePass.ResolveElement | TweakParser/SemanticAnalyzer.cs:1004-1102 | one element resolved, the others untouched |
| References.ResolveFile | TweakParser/SemanticAnalyzer.cs:782-803 | all of a file's top flats and records are resolved on success |
| References.ResolveReferences | TweakParser/SemanticAnalyzer.cs:770-808 | on success every top-level record of every file is marked resolved and every top-level flat has a declared type and a resolved key (`FileResolved`); every record marked resolved, and each of its flats, passes the record and flat-type checks of the sanity pass (`ResolvedSane`) |
| References.FilesStay | TweakParser/SemanticAnalyzer.cs:770-808 | a file's resolution survives the resolution of later files |
| Flattening.Names | TweakParser/SemanticAnalyzer.cs:1444-1470 | the names of a flat list, in order |
| Flattening.Overrides | TweakParser/SemanticAnalyzer.cs:1448-1462 | one flat per inherited flat, with the same names in the same order: the child's own flat of that name when there is one |
| Flattening.Novel | TweakParser/SemanticAnalyzer.cs:1463-1470 | the child's own flats whose names the parent does not have |
| Flattening.Inherit | TweakParser/SemanticAnalyzer.cs:1444-1470 | the inherited flats, each replaced by the child's own flat of that name, followed by the child's novel flats |
| Flattening.InheritedFlats | TweakParser/SemanticAnalyzer.cs:1411-1495 | none when the parent chain returns to a record being flattened; a base record's own flats; otherwise its parent's flats merged with its own |
| Flattening.NovelNames | TweakParser/SemanticAnalyzer.cs:1463-1470 | the names after merging are exactly the parent's names plus the child's |
| Flattening.NovelDistinct | TweakParser/SemanticAnalyzer.cs:1463-1470 | merging never introduces a duplicate name |
| Flattening.InheritNames | TweakParser/SemanticAnalyzer.cs:1444-1470 | a merged name comes from the parent or from the child |
| Flattening.InheritDistinct | TweakParser/SemanticAnalyzer.cs:1444-1470 | merged flats have distinct names when the parent's do |
| Flattening.InheritOwnWins | TweakParser/SemanticAnalyzer.cs:1448-1462 | where both define a name, the merged list holds the child's flat |
| Flattening.InheritedFlatsStable | TweakParser/SemanticAnalyzer.cs:1411-1495 | appending nodes to the arena does not change any record's flattened flats |
| Flattening.FlattenRecord | TweakParser/SemanticAnalyzer.cs:1411-1495 | a record already on the stack fails with Circular; on success the copy is a flattened record |
| Flattening.MergeInherited | TweakParser/SemanticAnalyzer.cs:1448-1462 | produces copies of `Overrides` |
| Flattening.AddNovel | TweakParser/SemanticAnalyzer.cs:1463-1470 | appends copies of `Novel` |
| Flattening.MergeOne | TweakParser/SemanticAnalyzer.cs:1449-1461 | adds to the copies one more: the parent's flat when the record declares none of that name, or else the record's flat flattened and merged with it |
| Flattening.FlattenOverride | TweakParser/SemanticAnalyzer.cs:1460 | the record's own flat, flattened, merged with the parent's flat of the same name: `=` keeps its own flattened value, `+=` on an array appends the parent's elements after its own flattened ones, `+=` on anything else fails |
| Flattening.FlattenEach | TweakParser/SemanticAnalyzer.cs:1474-1480 | a base record's copy holds a flattening of each of its own flats, in order |
| Flattening.FlattenFlat | TweakParser/SemanticAnalyzer.cs:1497-1504 | a new flat copies the original's name, type, array flag, operator, key and context, and holds a flattening of the original's value (`ValueFlattened`) |
| Flattening.FlattenValue | TweakParser/SemanticAnalyzer.cs:1506-1610 | scalars and vectors copy; unresolved, inline and unkeyed values fail; a string key expands only when the rules say so and the target is not on the stack; an array holds fresh copies of its elements (`ArrayCopied`) |
| Flattening.FlattenArray | TweakParser/SemanticAnalyzer.cs:1524-1540 | a new array value of the original's type, without a key, holding in order one fresh copy of each element with the element's type, array flag and syntax (`ArrayCopied`) |
| Flattening.FlattenStringKey | TweakParser/SemanticAnalyzer.cs:1541-1575 | expands the target per the rules; a Circular failure is swallowed and leaves an empty copy |
| Flattening.FlattenInline | TweakParser/SemanticAnalyzer.cs:1580-1601 | an inline key value with no target fails; otherwise its flats merge into the target's |
| Flattening.FlattenRecordByName | TweakParser/SemanticAnalyzer.cs:1391-1409 | the record is found by a lookup with no package context, so a name without a dot fails; a found record is flattened; the roots are kept and only empty packages are added |

## Left out

- Program.cs is not part of this model: it holds the file reading, the command line and the
  printing.
- The log files, `Print` and `TweakPrint` are left out: they are output only.
- Exception message texts are left out. An error carries only its kind, `Fatal` or `Circular`.
- The lexer tests `Char.IsLetter` and `Char.IsDigit` against ASCII letters and digits only,
  not the Unicode categories.
- `SyntaxNode.tokenData` is carried in the class but not used by the parser model.
- The arena builds a tree's children before the tree itself. The source allocates parents
  first; the resulting parent and child links are the same.
- `GlobalContext.RootNodes` is a dictionary in the source. Here it is a sequence of (file,
  root) pairs in which a file name occurs at most once.
- A record lookup in the source may create empty packages, even when it then fails. The
  lookup methods of the model (`GlobalContext.ResolveRecordType` and those built on it)
  keep those additions. The root-flat search (`Registry.FindRootInheritedFlat`) and the
  subclass test (`Resolution.IsSubclassOf`) are pure functions in the model and add none,
  where the source's versions may. The lemmas `LookupStable`, `NextAncestorStable`,
  `IsSubclassOfStable` and `FindRootInheritedFlatStable` show that no lookup depends on
  the difference.
- After an error, the state may be partially written. The contracts say what holds on
  success and when an error is certain, not the exact partial state.
- ResolvePass.ReconcileElement: the contract does not promise a failure when an array
  element's key record is not a subclass of the flat's key. The method does fail there, as
  the source does, but `ElementFails` leaves that case out.
- ResolvePass.ResolveFlat: its error clause, through `FlatFails`, covers a non-array value
  whose own key denotes no record, but not one whose key record is not a subclass of the
  flat's key. ResolveScalar states that case, against the arena as it stands once the
  flat's key is resolved. Carrying it back to the arena the flat's resolution starts from
  would need every filled-in parent reference to agree with its name's lookup, and the
  model does not keep that as an invariant.
- Resolution.FlatResolved: for the same reason it does not state that a value's own key is
  a subclass of the flat's key; the contracts of ReconcileScalar and ResolveScalar do.
- References.ResolveReferences: on success it promises only the record and flat-type checks
  of the sanity pass (`ResolvedSane`, `FileResolved`). It does not promise that the values
  below the flats pass the value checks, and it is not related to `Sanity.SanityCheck`,
  which the model keeps as a separate pass run after resolution, as the source does.
- Flattening.FlattenArray: each element is stated only as a fresh copy of its type, array
  flag and syntax (`ArrayCopied`), not as that element's whole flattening (a string key's
  target record, an inline record). Stating it would need each element's flattening
  carried across the arena growth of the elements after it.
- Flattening.FlattenValue: for an array value, the contract is that of FlattenArray, with
  the same gap; for every other kind of value it states the whole flattening.
- References.ResolveReferences: it requires that every node has one owner and that no child
  is listed twice. That is the shape analysis builds, but the analysis methods are not
  proved to establish it.
- Registry.FindRootInheritedFlat and Resolution.NextAncestor: where the source would
  recurse forever on cyclic inheritance, the model returns a failure.
- Flattening.FlattenStringKey: the source recognises a circular failure by the text of its
  message. The model uses the error kind instead.
- Flattening.FlattenRecord: the flatten stack is passed and returned as a value rather than
  shared. After a swallowed failure the source may leave entries behind, so the contract
  states only that the old stack is a prefix of the new one.
- The console line printed while flattening the `ChemicalDamage` record is left out: it is
  output only.
- Flattening.Flattened: relates each copied flat to its original by name, type, operator,
  key and context only. The relation between their values is stated flat by flat, in the
  contracts of `FlattenFlat` (`ValueFlattened`) and `FlattenOverride`.
- Flattening.FlattenRecord: its contract does not state the values of the copied flats,
  so the merge of an overriding `+=` flat with the parent's reaches the record only through
  `FlattenOverride`, which states it for each merged flat.
