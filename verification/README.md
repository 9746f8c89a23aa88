# Verified model of psx_mnd_sym

psx_mnd_sym reads the symbol files (MND/SYM) of PlayStation 1 programs and rebuilds the C types and
declarations they describe. This project models that, from the bytes of the file to the types and
declarations that are printed, in Dafny 4.11, and proves what the program is for. `dafny verify
dfyconfig.toml` checks all of it.

The program changes things in place, and so does the model: type objects are objects of one class `Node`,
whose `def` says which concrete type each is; the parser, the overlays, functions and blocks are classes; the
operations are methods with loops. Each method is proved against a specification on values: a snapshot
`Snap` of all type objects is a graph, `View` is what type parsing is about, `Decls` what the overlays list.
A panic of the program is an `Outcome`.

## What is modelled

- Records (`Fields`, `Records`, `SymFile`, `ByteLayout`, `ListedLines`, `LineNumbers`, `LineListing`): the layout
  of the file byte by byte, reading it, the listing with its offsets and running line, and the line numbers kept
  for the overlays.
- Types in words (`TypeWord`, `WordBits`, `CTree`, `DeclaratorPrinter`, `DeclaratorReader`, `DeclaratorProof`,
  `HeapDeclarators`): the modifiers packed in 16 bits, the type they stand for, its printed declarator, as a tree
  and as type objects, and a reader for declarators after section 6.7.5 of ISO/IEC 9899:1999.
- The type pass (`GroupScan`, `Initial`, `Scaffolds`, `TagGroups`, `Ledgers`, `Filling`, `EnumNames`,
  `TypeTrees`, `Typedefs`, `ResolveTypes`, `ParseTypes`, `ClassNumbers`): empty types for all groups first, then
  each group fills one; the objects of modifiers are trees down to tagged types throughout.
- The declaration pass (`BlockTree`, `BodyLines`, `BodyFacts`, `FuncIndex`, `DeclLists`, `FuncBodies`,
  `GlobalDecls`, `ParseFunc`, `FuncRun`, `FuncValues`, `OverlayRun`, `OverlayFacts`, `Projection`, `DeclScan`,
  `ParseDecls`): overlays, symbols, variables, functions, blocks. Its result is a projection of the record list,
  and its outcome a function of it.
- Duplicates (`TypeGraph`, `Comparison`, `Rewriting`, `WalkTermination`, `WalkStarts`, `Fixups`,
  `Untouched`, `Dedup`, `Liveness`, `RemoveDuplicates`): the comparison, the rewriting walk over a cyclic, shared
  graph, what it leaves alone, and three passes of it.
- Names (`Naming`, `Spelling`, `UniqueTags`, `DeclNames`, `UniqueNames`): identifiers, new tags, and new names
  for variables and functions.
- The program (`Pipeline`): all of it in order.

What the methods are proved against is often a function that goes from record to record, as the program does.
Beside it stands a statement that does not: in bytes and bits (`ByteLayout`, `WordBits`), in the numbers of classes
and kinds (`ClassNumbers`), by positions (`Selections`, `OverlayFacts`, `Spelling`), or in closed form (`BodyLines`,
`ListedLines`). `Examples` has single inputs with their results.

Deep equality is stated as equal unfoldings at every depth. `Comparison.DeepEquals` decides it as
`reflect.DeepEqual` does, with a set of pairs already under comparison.

## Where the program falls short

- A type definition may be left on a removed type, by itself or under pointers, arrays and functions.
  `removeStructsDuplicates` and its twin do not rewrite type definitions, since the walk has no case for them
  (csym/parse_fixups.go:101-127 and 158-164). One comes to a removed type under m modifiers, for any m, exactly if
  the struct or union it comes to there has an earlier twin: a type of the same tag that is deeply equal
  (`TypedefDanglesExactly`, and `IsCleaned` for what was translated). `Counterexamples.TypedefLeftBehind` has five
  records on which this happens, whatever modifiers the definition has.
- The rewriting walk enters unions and never stops at one it has seen (csym/parse_fixups.go:100-127). The walks
  that start at the fields of the listed unions all return exactly if no union reaches itself without crossing a
  struct, and if they do, so do all others (`WalkStarts.FieldsDecide`, `TranslatedIsDedupable`).
  `Counterexamples.WalkDoesNotEnd` has three records, a union with a pointer to itself, from whose field the walk
  does not return. `Pipeline.TranslateAndCleanUp` tests for it, where the program would not come back.
- The printed offset counts four bytes for each array length in 16 bits (symbol.go:540-542). It is the byte
  position exactly if no earlier definition has 16384 lengths or more (`PrintedOffsets`);
  `Counterexamples.OffsetIsWrong` has one that does.
- A function that was read before is skipped only if its start line is not 0 (csym/parse_decls.go:159-169). One
  with start line 0 is read again, and its blocks are appended: `OverlayFacts.ReadsAre` says which bodies are read,
  and `FuncRun.StoryOf` what they leave.

## Model

| member | source | states |
|---|---|---|
| Pipeline.TranslateAndCleanUp | cmd/sym_dump/main.go:73-80 | for every list of records: which outcome the two parsing passes have; after them, types, type definitions, overlays, symbols, variables, functions and line numbers are those of the records; the clean-up runs exactly if the walk from every field of every listed union returns at some depth, and then leaves what CleanUp promises |
| Pipeline.Translate | cmd/sym_dump/main.go:73-78 | the outcome of both passes is a function of the records; the declaration pass changes no type but for parameters, and the overlays hold their projections |
| Pipeline.CleanUp | cmd/sym_dump/main.go:79-80 | in a graph k between removal and renaming every type and every function type means what it meant; the first of all twins is left; under every number of modifiers, a type definition comes to a removed type exactly if it came to a later twin; nothing else refers to a removed type, also after renaming; renaming changes tags and names only, as FinalTagIs, MakeVarNamesUnique and MakeFuncNamesUnique say, and all tags of a kind differ |
| Pipeline.TranslatedIsDedupable | csym/parse_fixups.go:100-198 | whatever was translated, all walks of the removal of duplicates return within some depth if and only if those from the fields of the listed unions do, and if and only if no union reaches itself without crossing a struct |
| Pipeline.TranslatedIsUnaliased | csym/parse_types.go:566-628 | whatever was translated, the object of a pointer, an array or a function stands in at most one place of the whole graph, that of a function's own type in none, and none is a variable |
| Pipeline.TypedefsAreAlone | csym/parse_fixups.go:158-164 | no type definition of a translated file is a variable, a local or a parameter, so that no walk rewrites it |
| RemoveDuplicates.RemoveDuplicateTypes | csym/parse_fixups.go:11-70 | every type object unfolds to what it unfolded to at every depth; every function keeps its name and the meaning of its type; of each tag the first of the deeply equal types stay, in order, in list and groups; nothing reachable from declarations, structs or unions is a removed type |
| RemoveDuplicates.ThreePasses | csym/parse_fixups.go:11-70 | struct pass, union pass, struct pass: types and function types mean what they meant, the tables keep the first of all twins, and the third pass changes nothing at all |
| RemoveDuplicates.TypedefDanglesExactly | csym/parse_fixups.go:158-164 | for every number m: after the passes, a type definition comes to a removed type under m modifiers if and only if the struct or union it came to there has an earlier deeply equal type under its tag |
| RemoveDuplicates.RemovedHaveTwins | csym/parse_fixups.go:19-43 | a type is taken off the list if and only if it has an earlier deeply equal type under its tag |
| RemoveDuplicates.RewritingKeepsLeaders | csym/parse_fixups.go:19-70 | rewriting changes no choice: the same types come first among their twins before and after it |
| Rewriting.RewritingKeepsUnfolding | csym/parse_fixups.go:100-135 | assigning remapped types at any set of places, in cyclic graphs too, leaves every unfolding as it was, if keys and values of the remap are deeply equal |
| Rewriting.RewritingKeepsMeaning | csym/parse_fixups.go:100-135 | the same for all depths at once, and which types are deeply equal does not change either |
| Fixups.ReplaceInSlot | csym/parse_fixups.go:100-135 | the recursive walk rewrites exactly the places it reaches, each once and for all |
| Fixups.ReplaceUsedTypes | csym/parse_fixups.go:138-198 | all structs, unions, variables, functions, parameters and locals of all overlays are covered, nothing but their types is changed, and no function type becomes anything but what the remap says |
| Untouched.NamesStay | csym/parse_fixups.go:100-198 | in a pass, every declaration that is no variable, local or parameter, as type definitions are, comes under any number of modifiers to the very object it came to before |
| WalkStarts.FieldsDecide | csym/parse_fixups.go:100-164 | the walks that start at the fields of all listed unions return, each at some depth, if and only if no place of the whole graph is visited again below itself |
| WalkStarts.RewritingKeepsReturns | csym/parse_fixups.go:100-135 | whatever places the walks have rewritten so far, the walk returns from exactly the same places |
| WalkTermination.RewritingKeepsWalksAll | csym/parse_fixups.go:100-135 | the depth bound of the walk still holds after rewriting |
| Liveness.PathsAvoidTheDead | csym/parse_fixups.go:138-198 | no path from a declaration, a listed struct or a listed union, not crossing a type definition, comes to a removed type |
| Comparison.DeepEquals | csym/parse_fixups.go:29 | decides, on any graph, whether two types have the same unfolding at every depth |
| Dedup.FindDuplicates | csym/parse_fixups.go:21-33 | the remap takes each type of a group exactly to the first one that is deeply equal to it, in whatever order the groups are visited |
| Dedup.Drop | csym/parse_types.go:269-311 | nil entries and their removal leave the list without the remapped types, in order |
| UniqueTags.MakeUnique | csym/parse_fixups.go:249-282 | the tags of all types of one kind are different afterwards, across all groups and in whatever order the groups are visited, and each is as FinalTagIs says; only tags of listed types change |
| UniqueTags.FreshTagsDiffer | csym/parse_fixups.go:290-350 | the search for an unused tag never ends with the same tag for two different types, even where tags already look like candidates |
| UniqueTags.FinalTagIs | csym/parse_fixups.go:249-350 | a type that is the only one with its tag keeps it; any other gets a tag not in use, made from its own in steps that each append a marker, the letter of its kind and the decimal numeral of its position |
| UniqueNames.MakeTagsUnique | csym/parse_fixups.go:201-206 | for the three tables one after the other, from the tags before it, and nothing but tags changes |
| UniqueNames.MakeDeclNamesUnique | csym/parse_fixups.go:207-214 | every overlay, each variable and function as the methods for one overlay say, from the names before it, and nothing else |
| DeclNames.MakeVarNamesUnique | csym/parse_fixups.go:217-233 | a variable that is not extern gets its address into its name, in eight hexadecimal digits, exactly if another such entry has its name; nothing else of it changes, and every other variable keeps its name |
| DeclNames.MakeFuncNamesUnique | csym/parse_fixups.go:236-246 | a function gets its address into its name, in eight hexadecimal digits, exactly if another entry has its name; every other keeps its name |
| DeclNames.RenamedAlike | csym/parse_fixups.go:285-308 | two functions that are renamed because their names are shared have one name exactly if they had one name and one address |
| Spelling.NameByCharacter | csym/parse_types.go:631-641 | a valid identifier has one character for each UTF-8 character of the name, or byte that is none: the character itself if it is an ASCII letter or digit, else an underscore |
| Spelling.AsciiName | csym/parse_types.go:631-641 | a name of ASCII characters keeps its length; letters and digits stay where they are, every other character becomes an underscore |
| Spelling.AddressName | csym/parse_fixups.go:285-288 | the made name is the name, `_addr_`, and eight hexadecimal digits that read back as the address |
| DeclaratorProof.ReadsBack | csym/c/type.go:272-322 | whatever is printed for a type and a name, pointers, arrays, functions, parameters and variadics nested in any way, reads back as that type and name |
| TypeWord.Mods | type.go:109-125 | the loop over the six groups gives the modifiers of the word, lowest group first, gaps skipped |
| WordBits.ModOfPair | type.go:102-125 | for every word and each of its six pairs of bits: 1 is a pointer, 2 a function, 3 an array, at the index that counts the pairs in use below it |
| WordBits.RecordTypeInBits | csym/parse_types.go:566-628 | the type of a definition, in bits and type objects: under as many objects as there are pairs in use below a pair comes the object for it, an array with the length that counts the array pairs above it, and under all of them the base type of the lowest four bits |
| WordBits.WordOutcome | csym/parse_types.go:566-628 | a word has no type exactly if its lowest four bits are 6, 7 or 11, or there are fewer array lengths than pairs of bits that are 3 |
| WordBits.FuncWord | csym/parse_decls.go:264-290 | a definition has a function type exactly if the lowest pair in use of its word is 2 |
| HeapDeclarators.HeapReadsBack | csym/c/type.go:272-322 | in any graph where modifiers and parameters end, as in all that are parsed, a type object is one tree, parameters of functions included, and what is printed by following its objects reads back as that tree and the name |
| TypeWord.WordOfMods | type.go:92-125 | every base and every list of at most six modifiers has a word in 16 bits, from which both are read back |
| TypeWord.WordIsItsMods | type.go:92-125 | base and modifiers determine the word exactly if it has no gap |
| TypeWord.DeclarationRoundTrip | csym/parse_types.go:566-628 | from a word to its type, its printed declaration and back: base, every modifier, the array lengths and the name; the word itself exactly if it has no gap |
| TypeWord.PrintingIsInjective | csym/c/type.go:272-322 | two declarations printed alike are the same type and name |
| ResolveTypes.ParseMods | csym/parse_types.go:608-628 | the new objects form the type the modifiers and lengths stand for, and it panics exactly if a length is missing |
| ResolveTypes.FindTagged | csym/parse_types.go:322-344 | the last type of the group of a tag, and nothing changes; where there is no group, one new type of size 0 with nothing in it is added to list and group |
| ParseTypes.ParseTypes | csym/parse_types.go:13-49 | panics exactly where the records say, never for want of a scaffold; at first there is one empty type with its tag and size for each record that opens a group, in order, and later types are only added with tags that no such record has, one for each; every tagged type is empty or holds the members of the last group that picked it and, if a struct, the methods of all that did; every group with members fills one type, later types first; all enum member names differ and are the names issued; the type definitions are those of the file |
| ParseTypes.ParseFieldGroup | csym/parse_types.go:83-185 | one group picks the last type of its tag and size that has no fields, and fills it with its members and methods, which keeps the count and the ledger |
| Scaffolds.FillingKeepsEnough | csym/parse_types.go:52-80 | for every kind, tag and size there are at least as many scaffolds as groups ahead, after every group too |
| Ledgers.FillingKeepsLedger | csym/parse_types.go:83-138 | no type holds the members of two groups, no two groups fill one type, of types with one tag and size the later is filled first, and a struct's methods are those of all groups that picked it, in order, after every group too |
| Initial.ReadyToFill | csym/parse_types.go:52-80 | with a scaffold for every group of the file, the count and the ledger hold at the first record |
| ParseTypes.ScaffoldLeft | csym/parse_types.go:347-362 | where a group opens, the group of its tag has an empty type of its size left, so that the panic for want of one never comes |
| ClassNumbers.TypesSucceedExactly | csym/parse_types.go:13-49 | the type pass succeeds if and only if every record that opens a group, wherever it stands, has the base of its kind and a group that is read to its end, and every type definition has a type |
| ClassNumbers.GroupEndsExactly | csym/parse_types.go:83-220 | a group is read to its end exactly if every record up to the end marker is no definition, or one of the classes of its kind with a type |
| ClassNumbers.GroupPanicsExactly | csym/parse_types.go:83-220 | it panics exactly at the first record that is neither, with the reason that record gives, or at the end of the records |
| ClassNumbers.MembersAre | csym/parse_types.go:83-220 | members are exactly the definitions of class 8, 11 or 16, methods the short ones of class 18, up to the end marker and in order |
| ClassNumbers.OpenersAre | csym/parse_types.go:67-79 | types are made first for exactly the short definitions of class 10, 12 or 15, in order |
| ClassNumbers.TypedefsAre | csym/parse_types.go:13-49 | type definitions are exactly the definitions of class 13, in order |
| ClassNumbers.StorageByNumber | csym/parse_decls.go:337-358 | the storage class of every class number, and the panic for all others |
| EnumNames.UniqueEnum | csym/parse_types.go:243-250 | the search ends with the first free candidate |
| EnumNames.CandidateIs | csym/parse_types.go:239-250 | the candidates are the name itself and the name with the marker and the decimal numerals from 0 on |
| EnumNames.SortedIs | csym/c/type.go:158-168 | a list is sorted exactly if values ascend and, where they are equal, no name comes before one that is less, character by character |
| EnumNames.AppendKeepsNamesDistinct | csym/parse_types.go:193-219 | the names of all members of all enums stay different, and the set is exactly the names issued |
| EnumNames.PrintedOrderIsCanonical | csym/c/type.go:158-168 | two sorted lists of the same members are one list |
| BlockTree.TreeRun | csym/parse_decls.go:180-237 | on any tree of blocks and in any state, the loop adds the direct declarations to the innermost block and the blocks in preorder, and restores the stack |
| BlockTree.BodyRun | csym/parse_decls.go:180-237 | a whole body leaves the blocks of its tree in preorder, with their own start and end lines and locals, the parameters outside, and nothing open |
| BlockTree.ClosesOnlyOpenBlocks | csym/parse_decls.go:204-211 | no missing block is closed if and only if no stretch from the start ends more blocks than it starts |
| BlockTree.WellNestedHasTree | csym/parse_decls.go:180-237 | every well-nested body has a tree |
| BlockTree.TreesAreWellNested | csym/parse_decls.go:180-237 | nothing else has one |
| BlockTree.FirstsExactly | csym/parse_decls.go:385-403 | a declaration is kept if and only if its name is not taken and no earlier one has it |
| ClassNumbers.BodyReadsExactly | csym/parse_decls.go:180-237 | a body is read without panic if and only if every record is a block start or end, or a definition of class 1 to 4, 6, 9, 13 or 17 with a type, and no stretch from its start ends more blocks than it starts |
| BodyFacts.BlocksByStarts | csym/parse_decls.go:187-203 | however nested, there is one block for each block start, in order, with its line |
| BodyFacts.LastBody | csym/parse_decls.go:169-186 | path and lines of a function are those of the start and the end of the last body read |
| BodyLines.LineInClosedForm | csym/parse_decls.go:172-219 | the running line of a body is the start line and the lines of all block starts and ends, added up, less one for each of these, modulo 2^32 |
| BodyLines.BodyLineNumbers | csym/parse_decls.go:172-219 | a body gives exactly one line number for its start and one for each block start and end, in order |
| FuncRun.HoldsTree | csym/parse_decls.go:157-239 | a function read once, from a well-nested body, holds exactly the preorder of the tree and the parameters outside it |
| ParseFunc.ParseFunc | csym/parse_decls.go:157-239 | the function of this name and address, skipped or read as its records say; no other function and no other type changes |
| DeclLists.FindFunc | csym/parse_decls.go:308-334 | the first function in the list registered under name and address, or exactly one new stub with its own function type |
| FuncIndex.FirstStays | csym/parse_decls.go:308-334 | a name and an address stand for one function, and functions added later do not change which |
| LineNumbers.ParseLineNumbers | csym/parse_decls.go:77-140 | one line number for every record of the group, and where parsing goes on |
| LineNumbers.CountersAgree | csym/parse_decls.go:77-140 | the running line of a group is the running line of the listing after the same record, modulo 2^32, where the listing does not panic |
| LineListing.LinesAreListed | csym/parse_decls.go:12-62 | every line number of every overlay is that of a line record, with the file named last and the line set last with all increments since, which is the line the listing shows for it; or of the start or a block of a function that is read, with the line its body adds up to |
| LineListing.GroupComplete | csym/parse_decls.go:77-140 | no line record of a group is without its line number in the overlay that is selected |
| LineListing.BodyComplete | csym/parse_decls.go:157-239 | nor the start of a function that is read, nor a start or end of its blocks |
| ParseDecls.ParseDecls | csym/parse_decls.go:12-62 | panics exactly where the records say; the overlays are those declared, the last with an ID wins, and each holds, in order, the symbols, variables, functions and line numbers of the records it is selected for, and each function the blocks, locals, parameters, lines and type of its records |
| ParseDecls.PlainTurn | csym/parse_decls.go:12-74 | one record that starts no function: it panics exactly where the record says; all lists but those of the current overlay stay as they are, and every overlay holds its projection of the records so far |
| ParseDecls.FuncTurn | csym/parse_decls.go:157-239 | the same for a record that starts a function, with the records of its body |
| OverlayFacts.DeclsSucceedExactly | csym/parse_decls.go:12-62 | the declaration pass succeeds if and only if every record of its main loop is fine: a function has an end and, if it is read, a body that can be; line numbers have an end; a selected overlay is declared before; a global has a type; any other is of a kind and class that is passed over |
| OverlayFacts.TopsAre | csym/parse_decls.go:12-62 | the records of the main loop: behind a function start, the one behind the first function end; behind line numbers, the first other record; behind any other, the next |
| OverlayFacts.SelectedLast | csym/parse_decls.go:51-58 | selected is the overlay of the last record that selects one, under the ID it had then; the default binary if there is none |
| OverlayFacts.DeclaredLast | csym/parse_decls.go:293-303 | an ID stands for the overlay declared last under it |
| OverlayFacts.SymbolsAre | csym/parse_decls.go:67-74 | the symbols of an overlay are those of exactly the name records read while it is selected, in order |
| OverlayFacts.VariablesAre | csym/parse_decls.go:264-290 | its variables are those of exactly the definitions of class 2 or 3 without a function type |
| OverlayFacts.FunctionsAre | csym/parse_decls.go:264-334 | its functions are added by exactly the definitions of class 2 or 3 with a function type and the function starts that no record before names |
| OverlayFacts.ReadsAre | csym/parse_decls.go:157-170 | bodies are read from exactly the starts of a function up to and with the first that has a line other than 0 |
| Records.SymbolWriteRead | symbol.go:54-132 | a written record reads back as itself, whatever follows |
| Records.SymbolReadWrite | symbol.go:54-132 | a record that was read, written again, gives the bytes it was read from |
| ByteLayout.RecordLayout | symbol.go:54-580 | reading at a position yields a record if and only if its value, its kind number and every field of its body stand there, at their places and lowest byte first; it stops for want of input or of a kind number exactly as the bytes say |
| ByteLayout.FileLayout | file.go:107-148 | a file is read exactly if it begins with MND and has eight bytes; version and target unit are those of bytes 3 to 7, and the records stand one behind the other from byte 8 on, up to where none stands |
| SymFile.Parse | file.go:107-132 | header, then records until the input ends or is no record |
| SymFile.ReadingIsInverse | file.go:107-132 | reading comes to the end of the input with a header and records if and only if the input is their byte form |
| SymFile.ListFile | file.go:28-70 | every line of the listing shows offset, record and running line; it panics exactly if an increment comes with running line 0 |
| ListedLines.RunningLine | file.go:35-58 | the listing panics exactly if some record increments a line that was never set, or set to 0; the running line is the line set last and all increments since |
| SymFile.PrintedOffsets | symbol.go:540-542 | the printed offset is the byte position modulo 65536 always, and exactly if and only if every earlier definition has fewer than 16384 lengths |
| Counterexamples.TypedefLeftBehind | csym/parse_fixups.go:158-164 | two empty unions of one tag and size and a type definition of that tag under any modifiers: however translated, under them it comes to a later twin |
| Counterexamples.WalkDoesNotEnd | csym/parse_fixups.go:123-126 | a union with a pointer to itself: however translated, the union is listed, and the walk that starts at its field returns at no depth |
| Counterexamples.OffsetIsWrong | symbol.go:540-542 | a definition with 16384 lengths: the next record is listed 65536 bytes too early |
| Examples.DefinitionIsRead | symbol.go:474-489 | the bytes of a type definition of unsigned char are read as class 13 and type 12 |
| Examples.WordsAreRead | type.go:18-48 | the modifiers of the words in the comment, and of one with an array |
| Examples.WordsArePrinted | csym/c/type.go:272-322 | how these types are printed |

## Left out

- TypesState.ResolutionIsStable: for the base without bits, only that it stands for a type definition of the
  name `bool`; a file may define that name again (csym/parse_types.go:223-240).
- DeclNames.MakeFuncNamesUnique: new names are not checked against names in use, in the program either, so
  uniqueness is claimed within renamed groups only (`RenamedAlike`).
- UniqueTags.MakeUnique: each kind on its own; a struct and a union may share a tag.
- The three copies of each routine for structs, unions and enums are one method with the kind as a parameter.
- `removeEnumsDuplicates` (csym/parse_fixups.go:73-97), which nothing calls.
- The search for a type by tag and size (`matchSize`, csym/parse_types.go:322-344), which no call asks for.
- `struc` as the reader of fields, beyond little-endian order; how a truncated input ends: the model stops.
- The text printed for bodies of structs, unions and functions, comments, and tags that stand for inline unions
  (csym/c/type.go:326-356): base types are single tokens of the declarator.
- `pruneDuplicates` and the merging of files (cmd/sym_dump/main.go:116-329): keyed on printed text and ordered by
  a library that is not part of this model.
- Files, logs, options, and scripts for other tools.
