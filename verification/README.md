# Verified model of the IDL-to-C++ generator

The C++ binding of Cyclone DDS has a generator that turns IDL types into C++ types and into four
functions per type: one writes a value to a CDR stream, one reads it, one moves over it to find
its size, and one finds the largest size that any value can have. This project models the parts
of that generator, and of the runtime its output relies on, in which a mistake would be hardest
to see, and proves what they are for.

`dafny verify dfyconfig.toml` checks the whole project.

## The streaming functions

`Idl` has the types and the C++ objects, `Encoding` the encoding of a value by recursion over its
type, which knows nothing of the generator. `Programs` is the language of the emitted functions,
as trees and as text; `Emitter` says which program belongs to which definition on which stream.
`Machine` interprets programs over a cursor with a remembered alignment, as the stream class does
(`Wire`), and over objects that are updated in place (`Objects`).

- `WriteMove`: writing yields the encoding, and moving ends where writing ends. `Layout` says what that
  is byte by byte: the numbers of a sample, each in its place, with zeros in between. `Aliases`: whether
  aliases of base types are streamed as they should be depends on the first declarator of their
  typedef; where that does not fit the alias, nothing can be streamed. `Idl.Streamable` is the
  condition that it fits for all aliases a type comes to, which the results on streams suppose.
- `RoundTrip`: reading inverts writing, into a default-constructed object and into every used one
  that is receptive. `ReadBound`: the bound of a sequence is checked against the vector that is read
  into, not against what is read; that of a string counts. `ReadLimits`: elements of vectors of booleans
  that are read by a call, unions that were used before, and numbers that are no enumerator.
- `Targets`, `MaxBound`, `MaxTight`: the bound of the max function holds for every value if the
  bounded strings of the object it is given are full, and some value attains it. Both are stated for
  the emitted getters, which throw for an inactive branch, and also for getters that yield some
  default object instead. `FullStrings`: exactly when an object gives a bound whose strings are not full.
- `MaxCompletes`: the exact condition, for all types and values, under which the max function
  completes. `MaxLimits` and `MaxRecursion` draw the consequences, which are results about the code
  as it is: a bounded string is measured by its present length; the throwing getters of inactive
  union branches are called, unless the branch is a sequence whose elements are not looked at; the
  elements of a vector are looked at up to the bound when they are booleans, or structs out of which
  a number is copied, so that measuring fails unless the vector is full (`SequenceMax`); and there is
  no end for types that hold bounded sequences of each other. For types with none of these measuring
  completes on every value (`PlainMax`).
- `FixedSize`: the size that is cached for self-contained types is right for all samples if and only
  if all values end in one place, which the type alone determines.

`Generator` is the imperative generator itself, with its four text buffers, its masks, its loops
over dimensions and over inheritance; its methods are proved to append exactly the text of the
programs that `Emitter` specifies. `EmittedText` holds the laws about pieces of text that this
needs. The text is properly nested on each stream although many openers go only to some of them.

The text has a meaning of its own. `TextNodes` reads it by its brackets alone, as lines and blocks, and
`TextMachine` runs these with local variables, scopes, loops, jumps to labels and calls of other
functions' text; it knows the text and the class the function is for, but no program. `TextRuns` and
`TextReads` prove, with the steps of `TextSteps`, that running the text emitted for a definition is
running its program, on all four streams and with all failures. So what is proved of programs holds of
the header: `HeaderRuns` reads it as four functions for each definition, and states what they do.

## Type graphs

`TypeGraphs` has the nodes of the syntax tree, which can be cyclic, what they stand for by chains of
references, and the depth-first search with one array of at most 128 visited nodes that is never
popped. `Validation` is built on the search by
value: what it accepts has no cycles by value, so `IsSelfContained` terminates. `RecursiveForms` has its
verdicts on the recursive types that the repository keeps as examples. `PropertyTables` is
built on the search by reference: the functions that build property tables, each under a lock of
its own, never come to wait for themselves, except by calls that the search cannot see because it
stops at typedefs of arrays. `Digraphs` has the graph theory.

## Names, templates and text

`Templates` compiles templates with {TAGS} into formats for printf and interprets these; `Printers`
writes C++ type names into buffers of any size. `TextBuffers` and `MultiText` are the growing
buffers and the routine that prints one text into several streams, each with its own replacements.

## Classes and declarations

`Unions` and `UnionClass` model the class emitted for a union as a state machine over its
discriminator and active alternative. `TypeIdentity` is the encoder with which branches of the same
C++ type are recognised for variants that are accessed by type. `EnumDecl` is the declaration of an
enum and the conversion back to it. `Externals` is the lockable shared pointer `external<T>`.

## Where code and documentation differ

- The help text of the template options speaks of {TYPE} and {BOUND} tags; the code takes any
  beginning of a tag's name, even none, for the tag (`Templates.WholeTagsOnly`, `EmptyBraces`).
- The max functions are described as moving to the largest position that could be occupied; for a
  bounded string the code goes by the length of the string at hand (`MaxLimits.BoundedStringMax`).
- The bound of a sequence is not enforced on reading: the check is emitted before the length is
  read, on the size that the vector has until then. `ReadBound.BoundNotEnforced` shows it for every
  element type and bound, and `ReadBound.BoundOfReceiver` says exactly when reading is accepted.
- The max functions are meant for any object. `MaxCompletes.CompletesExactly` says for which values they
  complete; a bounded sequence of booleans, or of structs with a number, that is not full is one for
  which they do not (`MaxLimits.BooleanVectorMax`, `StructVectorMax`): the code loads elements that
  the vector does not have. A reference to an element that is not there counts as harmless as long
  as nothing is loaded.
- An alias of a base type or string is meant to be streamed as that type, but the code asks the first
  declarator of the typedef whether it is an array. `Aliases.LaterArray` has the input for which
  this fails, and `Aliases.FirstDeclaratorDecides` the exact condition. The theorems about writing,
  reading, moving, measuring and sizes suppose it of the aliases that a type comes to, and of no others.
- Reading is meant for all types. For a vector whose elements are an alias of an alias of the boolean
  the emitted code refers to an element of `std::vector<bool>`, which is not possible;
  `ReadLimits.BooleanAliasRead` has the exact condition, which only the theorems about reading suppose
  (`RoundTrip.Readable`).
- Each C++ type is meant to be listed once in a union's variant. Besides bitmasks at the borders,
  later declarators and bounds that do not show (`TypeIdentity.BitmaskBorders`, `LaterDeclarators`,
  `SequenceBounds`), a class that is mentioned by a forward declaration and by its definition is taken
  for two (`TypeIdentity.ForwardNodes`).

## Assumptions

- The parser's work is taken as given: distinct member ids, label values that are distinct and of
  the discriminator's type, one default at most, whose label value no other label uses, no
  dimensions of zero, declarations before their use, and no type that holds itself by value
  through members that are always there.
- `idl_strip` resolves typedefs and forward declarations; with the flag for arrays also typedefs of
  arrays. The part of the parser library that does so is not part of this model.
- `idl_is_struct` and `idl_is_constr_type` hold of a forward declaration to a struct, whose node is
  not that of the definition. The first decides whether the cycle of `PropertyTables.ArrayTypedefsEntangle`
  is one of the code. Without the second, flattening a type with a forward declaration would end in an
  error (`TypeIdentity.ForwardNodes`).
- In `MultiText` printing stops where the code has no defined result: a text between tokens that is
  no format without arguments, and a token that the end of the text cuts off. `PlainView` says that
  texts without percent signs and cut-off tokens always print.


## Model

| member | source | states |
|---|---|---|
| Wire.NumberOfBytes | src/ddscxx/include/org/eclipse/cyclonedds/core/cdr/cdr_stream.hpp:604-628 | Reading the bytes of a number gives back the number, for every width of 1, 2, 4 or 8 bytes. |
| Wire.ByteAt | src/ddscxx/include/org/eclipse/cyclonedds/core/cdr/cdr_stream.hpp:680-704 | The byte at each place of a number is its digit there to base 256, the lowest first. |
| Wire.AlignStepRoundsUp | src/ddscxx/src/org/eclipse/cyclonedds/core/cdr/cdr_stream.cpp:30-54 | The step with the remembered alignment moves to the next multiple of the width, capped at the maximum alignment, and nowhere when the remembered alignment already says so. |
| Wire.RemIsRemainder | src/ddscxx/src/org/eclipse/cyclonedds/core/cdr/cdr_stream.cpp:37-38 | The remainder that the padding is computed with is that of division, for every position and width. |
| Wire.PaddingMonotone | src/ddscxx/src/org/eclipse/cyclonedds/core/cdr/cdr_stream.cpp:30-54 | Starting later never ends earlier, whatever padding lies between: rounding up is monotone. |
| Wire.AlignedAdvance | src/ddscxx/src/org/eclipse/cyclonedds/core/cdr/cdr_stream.cpp:30-54 | The remembered alignment stays truthful after a block of numbers of one width. |
| Idl.DefaultIsReceptive | src/idlcxx/src/streamers.c:1003-1083 | A type that has values is default-constructed into an object that a sample can be read into: vectors are empty and unions hold their default discriminator. |
| Idl.StripMeans | src/idlcxx/src/streamers.c:634-635 | Stripping a type follows typedefs without dimensions, however many, and stops only where there is none. |
| WriteMove.StripKeepsMeaning | src/idlcxx/src/streamers.c:634-635 | Looking through typedefs without dimensions changes neither the values of a type nor their encoding, whatever the type. |
| WriteMove.BulkIsEach | src/idlcxx/src/streamers.c:475-495 | Copying numbers out of a vector in one block is the same as encoding them one by one, since only the first can need padding. |
| WriteMove.EntryFound | src/idlcxx/src/streamers.c:1215-1227 | With distinct ids the switch over member ids finds, for the k-th id of the table, the k-th case. |
| WriteMove.RunDefinition | src/idlcxx/src/streamers.c:423-699 | For every definition whose aliases agree with the first declarator of their typedef: from every position and remembered alignment, the write and move programs end exactly after the reference encoding of the value, or fail for lack of room. |
| WriteMove.WriteIsEncoding | src/idlcxx/src/streamers.c:423-699 | For every such definition the write program puts exactly the reference encoding into the buffer if it fits, and fails if and only if it does not. |
| Layout.WriteIsLaidOut | src/ddscxx/src/org/eclipse/cyclonedds/core/cdr/cdr_stream.cpp:30-54 | What is written are the numbers the sample consists of, in order: each at the first multiple of its size, or of the largest alignment, behind the one before, with zeros in between and its lowest digit first, and nothing else. |
| Layout.LayoutDecides | src/ddscxx/src/org/eclipse/cyclonedds/core/cdr/cdr_stream.cpp:30-54 | That settles every byte: two streams in which the same numbers are laid out are equal from where these start. |
| Layout.DefAdds | src/idlcxx/src/streamers.c:423-699 | The encoding of every value, of any definition and wherever in a stream it stands, lays out the numbers of the value. |
| WriteMove.MoveEndsWhereWriteEnds | src/idlcxx/src/streamers.c:604-699 | For every such definition the move program always completes and ends where the write program ends, so the size it finds is the least with which writing succeeds. |
| Aliases.FirstDeclaratorDecides | src/idlcxx/src/streamers.c:431-438 | The values of an alias of a base type or string are written as their encoding and moved over in full if and only if the alias is no array or the first declarator of its typedef is one. |
| Aliases.LaterArray | src/idlcxx/src/streamers.c:431-438 | With `typedef long B, A[3]; struct S { A a; };` no value of S is written, read, moved over or measured, for the array is streamed as one number. |
| Aliases.ArrayStreamedAsOne | src/idlcxx/src/streamers.c:431-438 | The same for every such alias wherever it is used: code that takes an array for the number or string of its typedef completes on none of the streams. |
| RoundTrip.ReadDefinition | src/idlcxx/src/streamers.c:991-1083 | For every such definition in which elements of vectors of booleans are booleans or bare aliases of it: the read program restores the value from any buffer that holds its encoding at the cursor, and moves the cursor by its length, in every receptive object: a default-constructed one, or a used one whose vectors are within their bounds and whose unions with an implicit default have no active branch. |
| RoundTrip.ReadInvertsWrite | src/idlcxx/src/streamers.c:423-699 | Under the same conditions: reading what was written, anywhere in a buffer and with anything after it, into any receptive object, yields the value with its discriminators and consumes exactly the bytes written. |
| RoundTrip.SetterKeepsDiscriminator | src/idlcxx/src/types.c:789-799 | The setter that reading calls with the discriminator it read accepts it for the branch that was selected, and keeps it. |
| ReadBound.BoundOfReceiver | src/idlcxx/src/streamers.c:541-568 | Of elements that can be read, reading accepts an encoded vector of any length if and only if the vector it reads into has at most as many elements as the bound, modulo 2^32; the result is what was encoded. |
| ReadBound.BoundNotEnforced | src/idlcxx/src/streamers.c:541-568 | Into a default-constructed vector more of such elements than the bound allows are read without complaint, and the result is no value of the type. |
| ReadBound.BoundOfWriter | src/idlcxx/src/streamers.c:541-568 | Writing refuses a vector with more elements than the bound. |
| ReadBound.StringBoundOfReader | src/ddscxx/include/org/eclipse/cyclonedds/core/cdr/cdr_stream.hpp:819-846 | The bound of a string does count for what is read: an encoded string is accepted if and only if it keeps the bound, and is the result. |
| ReadBound.StringBoundOfWriter | src/ddscxx/include/org/eclipse/cyclonedds/core/cdr/cdr_stream.hpp:863-872 | A string that exceeds its bound is not written, wherever the stream stands. |
| ReadLimits.BooleanAliasRead | src/idlcxx/src/streamers.c:325-342 | A vector whose elements are an alias that comes down to the boolean is read if and only if it is empty or the alias is bare: for others a function is called that would need a reference to a bit. |
| ReadLimits.DefaultIntoUsedUnion | src/idlcxx/src/types.c:736-748 | Reading a value of the implicit default into a used union succeeds if and only if no branch is active in it; the result is what was encoded. |
| MaxBound.ProgGrows | src/idlcxx/src/streamers.c:1389-1391 | The max program never goes back: it ends at or after its start. |
| MaxBound.BranchesGrow | src/idlcxx/src/streamers.c:1011-1022 | All branches of a union are measured from the same position, and what is kept is at or after the end of every one of them. |
| MaxBound.MaxBoundsMove | src/idlcxx/src/streamers.c:1011-1022 | When the max program completes on an object in which every bounded string it looks at is full, no value of the type is moved over beyond where it ended: a union's end is past all branches, and an unbounded sequence has none. It holds with the emitted getters and with getters that do not throw. |
| MaxBound.MaxBoundsFreeText | src/idlcxx/src/streamers.c:1011-1022 | The same for every object of a type from which no bounded string can be reached. |
| MaxBound.UnboundedMeasured | src/idlcxx/src/streamers.c:580-582 | After an unbounded sequence the max program stands at infinity. |
| MaxTight.MaxIsReached | src/idlcxx/src/streamers.c:1420-1422 | Of every type that has values, with bounds that fit 32 bits, the bound is attained: unless it is infinite, some value of the type is moved over exactly to it. |
| FullStrings.BoundsLikeFull | src/ddscxx/include/org/eclipse/cyclonedds/core/cdr/cdr_stream.hpp:941-950 | Where measuring an object ends is a bound of all values of its type if and only if that is at or after where measuring a full object ends. |
| FullStrings.FullNotNecessary | src/ddscxx/include/org/eclipse/cyclonedds/core/cdr/cdr_stream.hpp:941-950 | In a struct of a string bounded by 3 and a long, every string is measured to a bound of all values, full or not, for padding makes up for what is missing. |
| MaxLimits.BoundedStringMax | src/ddscxx/include/org/eclipse/cyclonedds/core/cdr/cdr_stream.hpp:941-950 | Measuring a bounded string uses the length the given string happens to have: it bounds every value if and only if that string is full. |
| MaxCompletes.CompletesExactly | src/idlcxx/src/streamers.c:423-699 | The max program of every type completes on a value, from every position, if and only if all that its code looks at is there: the objects of all branches; up to the bound of every sequence, elements that are booleans, bounded strings, unions, or structs of which a number is copied, and the vectors that elements are reached through; and definitions for as many nested calls as it makes. |
| MaxLimits.UnionMax | src/idlcxx/src/streamers.c:1036-1059 | The max program of a union completes if and only if the value of the active branch can be measured and every other branch is a sequence whose elements are not looked at: without a bound, or of numbers that are not booleans, or of such sequences. |
| MaxLimits.UnionMaxNeedsActiveBranch | src/idlcxx/src/streamers.c:1036-1059 | The max program goes through the getter of every branch, so it fails on every object in which some branch that is looked at is inactive. |
| MaxLimits.UnionOfNumbersMax | src/idlcxx/src/types.c:777-787 | For a union of numbers the max program completes if and only if every branch is the active one. |
| MaxLimits.BooleanVectorMax | src/idlcxx/src/streamers.c:398-408 | The max program of a sequence of booleans looks at the elements up to the bound, so it completes if and only if there is no bound or the vector is full. |
| MaxLimits.SequenceMax | src/idlcxx/src/streamers.c:541-582 | The max program of a sequence of elements that can all be measured completes if and only if there is no bound, or elements need not be there to be measured, or all are there up to the bound. |
| MaxLimits.StructVectorMax | src/idlcxx/src/types.c:202-205 | The getter of a number returns a copy, so the max program of a sequence of structs with a number completes, when each of them can be measured, if and only if there is no bound or the vector is full. |
| MaxLimits.PlainMax | src/idlcxx/src/streamers.c:423-699 | The max program completes on every value of a type in which elements of bounded sequences need not be there to be measured and unions have no second branch that is looked at; no value is moved over beyond where it ended on an object whose bounded strings are full. |
| MaxLimits.UncheckedUnionMax | src/idlcxx/src/streamers.c:1011-1022 | With getters that do not check the discriminator, the max program of a union of numbers completes on every value, and no value with any branch is moved over beyond where it ended. |
| MaxRecursion.EndlessNeverEnds | src/idlcxx/src/streamers.c:554-582 | Where every type of a set certainly calls the max function of another type of the set, none of these functions ever completes, at any depth and for any object. |
| MaxRecursion.MaxEndsOrNot | src/idlcxx/src/streamers.c:554-582 | For every type: either its max program completes on no value at any depth, and then it calls types that only call each other on and on; or it makes no difference to whether it completes how deep calls may go, beyond the number of types it calls. |
| MaxRecursion.BoundedRecursionNeverEnds | src/idlcxx/src/streamers.c:554-582 | For a struct that holds a bounded sequence of itself, among any other members and bases, the max program has no end. |
| FixedSize.ValueOfDefEnds | src/ddscxx/include/org/eclipse/cyclonedds/topic/datatopic.hpp:267-288 | The encoding of every value of a type without strings and sequences ends at one of the positions that the type alone determines. |
| FixedSize.EndOfDefReached | src/ddscxx/include/org/eclipse/cyclonedds/topic/datatopic.hpp:267-288 | At each of these positions some value ends, when all types have values. |
| FixedSize.SizeIsFixed | src/ddscxx/include/org/eclipse/cyclonedds/topic/datatopic.hpp:267-305 | For every type that counts as self-contained, unions and what holds them included: the size measured for the first sample is that of every sample if and only if there is only one position at which values can end. |
| FixedSize.SelfContainedSizeIsFixed | src/ddscxx/include/org/eclipse/cyclonedds/topic/datatopic.hpp:267-305 | For a type from which no string, sequence or union can be reached, the size measured for the first sample is that of every sample. |
| FixedSize.PaddingAbsorbs | src/ddscxx/include/org/eclipse/cyclonedds/topic/datatopic.hpp:267-305 | A struct can have one size although it holds a union whose branches have different ones: padding makes up. |
| Programs.FlattenIsNested | src/idlcxx/src/streamers.c:525-585 | The text of every program fragment leaves the open brackets around it as they were. |
| Emitter.TextIsNested | src/idlcxx/src/streamers.c:1158-1280 | The text of the function for every definition is properly nested on each of the four streams, with the blocks for optional members on two of them and the key guard of unions. |
| Emitter.GettersReturn | src/idlcxx/src/types.c:194-211 | Getters return copies of numbers and enums only, also by way of aliases, and references to everything else, to arrays and to optional and external members. |
| TextNodes.ParseProgText | src/idlcxx/src/streamers.c:1158-1280 | Read from left to right by its brackets alone, the text of every function is one block, whose lines and blocks are those of the program. |
| TextSteps.SwitchRuns | src/idlcxx/src/streamers.c:1442-1470 | The switch in the text jumps to the case of the discriminator, or else to the default, and runs exactly the block of the branch that the labels of the union give for it; for the implicit default reading sets the discriminator, and the other streams do nothing. |
| TextSteps.PresenceRuns | src/idlcxx/src/streamers.c:885-934 | The text around the code of a member: an optional member without a value is neither written nor moved over, and one that is read gets a new value first; an external member without a target cannot be written or moved over, and gets one when it is read. |
| TextSteps.KeyStreams | src/idlcxx/src/streamers.c:1050-1054 | When the discriminator is a key, branches are left out of key streams, and of no others. |
| TextRuns.FunctionRuns | src/idlcxx/src/streamers.c:423-1440 | Running the emitted text, line by line, does exactly what the program does: for every definition, on the streams that write, move and measure, on every object and from every place, failures included. |
| TextReads.FunctionReads | src/idlcxx/src/streamers.c:423-1440 | The same for the text that reads: the object and the place in the stream are those the program ends with, or both fail. |
| HeaderRuns.HeaderFunctions | src/idlcxx/src/streamers.c:166-176 | The header of a translation unit is read as four functions for each definition, in order, and each has the text that the results here are about. |
| HeaderRuns.TextWritesLayout | src/idlcxx/src/streamers.c:423-1440 | The emitted write function succeeds if and only if the buffer has room for the encoding, and leaves the numbers of the sample in it, each in its place. |
| HeaderRuns.TextReadsBack | src/idlcxx/src/streamers.c:423-1440 | The emitted read function restores what the emitted write function wrote, anywhere in a buffer, into any receptive object, and consumes exactly these bytes. |
| HeaderRuns.TextMaxBoundsMove | src/idlcxx/src/streamers.c:423-1440 | Where the emitted max function completes on an object whose bounded strings are full, the emitted move function ends nowhere beyond, for any value. |
| EmittedText.VectorText | src/idlcxx/src/streamers.c:525-585 | The pieces written for a sequence, on each stream its own, add up to the text of its program. |
| EmittedText.ArrayText | src/idlcxx/src/streamers.c:640-699 | Opening a loop per dimension but the one copied in a block, then the inner code, then closing the loops from the innermost, is the text of the nested program. |
| EmittedText.InheritedStep | src/idlcxx/src/streamers.c:831-865 | The members of an ancestor follow those of the ancestors beyond it. |
| EmittedText.UnitIsNested | src/idlcxx/src/streamers.c:1636-1685 | The header generated for a whole translation unit is properly nested. |
| Generator.Streams.Put | src/idlcxx/src/streamers.c:258-303 | Every stream in the mask gains the text and no other stream changes. |
| Generator.Streams.WriteStreamingFunctions | src/idlcxx/src/streamers.c:423-450 | Each stream gains the text for one object: aliases of base types and strings whose first declarator is no array are streamed as the bare type, others by a call. |
| Generator.Streams.SequenceWrites | src/idlcxx/src/streamers.c:461-523 | Each stream gains the text for the elements: one block or a loop, with default-constructed elements for move and max. |
| Generator.Streams.UnrollSequence | src/idlcxx/src/streamers.c:525-585 | Each stream gains the text of the program for a sequence. |
| Generator.Streams.OpenArray | src/idlcxx/src/streamers.c:640-670 | As many loops are opened as the program for the array has, on each stream over its own accessor. |
| Generator.Streams.ProcessEntity | src/idlcxx/src/streamers.c:604-699 | Each stream gains the text of the program for a declarator. |
| Generator.Streams.AddMemberStart | src/idlcxx/src/streamers.c:867-907 | Each stream gains the start of a member: the check for a value of an optional one on writing and moving only, and what an external or optional one needs on reading. |
| Generator.Streams.AddMemberFinish | src/idlcxx/src/streamers.c:909-933 | Each stream gains the end of a member, the end of the block for optional ones on the streams that opened it. |
| Generator.Streams.ProcessMember | src/idlcxx/src/streamers.c:935-978 | Each stream gains the cases of all declarators of a member. |
| Generator.Streams.GenerateStructProperties | src/idlcxx/src/streamers.c:831-865 | The table gains the ids of all members, those of the farthest base first. |
| Generator.Streams.ProcessStructContents | src/idlcxx/src/streamers.c:1301-1341 | Every stream gains the cases of all members in the same order as the table of properties. |
| Generator.Streams.ProcessStruct | src/idlcxx/src/streamers.c:1343-1375 | Each stream gains the whole function of a struct. |
| Generator.Streams.ProcessCase | src/idlcxx/src/streamers.c:991-1083 | Each stream gains the text of one branch, inside a guard against key streams when the discriminator is a key; the first opens the switch, the last closes it, and max has neither. |
| Generator.Streams.ProcessUnion | src/idlcxx/src/streamers.c:1407-1440 | Each stream gains the whole function of a union. |
| Generator.Streams.ProcessTypedefDecl | src/idlcxx/src/streamers.c:1473-1515 | Each stream gains the whole function of a typedef. |
| Generator.Streams.Flush | src/idlcxx/src/streamers.c:166-176 | All text moves to the files and the buffers are empty. |
| Generator.Streams.GenerateStreamers | src/idlcxx/src/streamers.c:1636-1685 | The header gains the four functions of every definition in order, and the implementation file the tables. |
| Digraphs.RankFalls | src/idlcxx/src/generator.c:534-560 | In an acyclic graph every edge leads to a node of lower rank. |
| Digraphs.AcyclicExtension | src/idlcxx/src/generator.c:694-729 | Adding edges that do not lead back keeps a graph acyclic. |
| TypeGraphs.Search.Visit | src/idlcxx/src/generator.c:628-680 | A failed visit leaves only visited types whose uses have all been dealt with; a successful one has found a path or a full array. It always ends. |
| TypeGraphs.Search.VisitMembers | src/idlcxx/src/generator.c:649-666 | The base and all members that count are searched, externals only by reference. |
| TypeGraphs.TypeReachesType | src/idlcxx/src/generator.c:682-692 | At most 128 types are visited; false means that there is no path to the target, true that there is one or that 128 different types were visited. |
| TypeGraphs.StripMeans | src/idlcxx/src/generator.c:636-637 | Stripping yields what a node stands for by typedefs and forward declarations: by value it also goes through typedefs of arrays. What a node stands for is said by chains of references, not by how stripping is computed. |
| TypeGraphs.StripFails | src/idlcxx/src/generator.c:639-640 | It yields nothing if and only if these lead to a forward declaration without a definition. |
| TypeGraphs.EdgeByValue | src/idlcxx/src/generator.c:641-669 | The search by value leads from a type to what the base, the members and branches, and the aliased types that it holds in place stand for, and nowhere else. |
| TypeGraphs.EdgeOfReferences | src/idlcxx/src/streamers.c:738-756 | The search by reference leads to what the base, the members and the elements of a type stand for, and nowhere else. |
| TypeGraphs.NoPath | src/idlcxx/src/streamers.c:715-767 | When a search with a shared, never popped array fails, nothing it reached leads to the target. |
| Validation.ValidateMember | src/idlcxx/src/generator.c:694-729 | A member is accepted only if it is not optional and external at once and, being optional, does not lead back to its owner; below 128 types it is accepted exactly then. |
| Validation.ValidateTypes | src/idlcxx/src/generator.c:754-765 | The graph is accepted only if all members and branches are good, and below 128 types exactly then. |
| Validation.AcceptedIsAcyclic | src/idlcxx/src/generator.c:1071-1098 | If required members alone make no cycle, then all members and branches are good if and only if no cycle by value exists through optional members either and the bans on external hold. |
| RecursiveForms.OptionalSelfRejected | src/ddscxx/tests/data/RecursiveOptionalSelf.idl:1-7 | An optional member of the struct itself, which it names by a forward declaration, is found to be recursive. |
| RecursiveForms.OptionalArraySelfRejected | src/ddscxx/tests/data/RecursiveOptionalArraySelf.idl:1-6 | So is an optional array of the struct itself, also one behind a typedef. |
| RecursiveForms.OptionalSequenceSelfAccepted | src/ddscxx/tests/data/RecursiveOptionalSequenceSelf.idl:1-7 | An optional sequence of the struct itself is accepted, also one behind a typedef. |
| RecursiveForms.MutualSequenceAccepted | src/ddscxx/tests/data/RecursiveMutualSequence.idl:1-12 | Structs that hold sequences of each other are accepted. |
| RecursiveForms.ExternalsRejected | src/ddscxx/tests/data/RecursiveOptionalExternal.idl:1-9 | A member that is optional and external at once is rejected, and so is an external branch. |
| Validation.SelfContainedMeans | src/idlcxx/src/generator.c:534-580 | On accepted graphs the recursion ends, and a type counts as self-contained if and only if nothing it holds by value, short of what forward declarations stand for, is a string or sequence, has an external part, or is an optional number. |
| Validation.OptionalStructCounts | src/idlcxx/src/generator.c:485-496 | An optional member whose type is declared elsewhere does not make its owner lose the property, for the type is not a child of the member. |
| PropertyTables.GenerateMemberProperties | src/idlcxx/src/streamers.c:769-829 | The table of a struct member follows its entry only if that struct does not lead back, and below 128 types whenever it does not. |
| PropertyTables.GenerateTables | src/idlcxx/src/streamers.c:831-865 | Which tables are taken over; the calls between the functions that build them form an acyclic graph if what is mentioned only by way of typedefs of arrays does not lead back, and if and only if no call to such a type does. |
| PropertyTables.MembersOfBases | src/idlcxx/src/streamers.c:841-862 | The members whose tables a struct takes over are its own and those of all structs it inherits from, and no others. |
| PropertyTables.MentionedMeans | src/idlcxx/src/streamers.c:777-784 | A member brings in the struct that its type comes down to by aliases, sequences and forward declarations, if it does. |
| PropertyTables.HiddenCallsDecide | src/idlcxx/src/streamers.c:723-767 | Whatever tables are taken over under this rule: the functions come to call themselves if and only if a call leads back that the search could not see behind a typedef of an array. |
| PropertyTables.CallsAreAcyclic | src/idlcxx/src/streamers.c:823-826 | If no struct that is mentioned only by way of a typedef of an array leads back, no function comes to call itself, recursive types or not. |
| PropertyTables.NothingHidden | src/idlcxx/src/streamers.c:723-724 | Without typedefs of arrays that condition always holds. |
| PropertyTables.EntangledAndYetAcyclic | src/idlcxx/src/streamers.c:723-724 | It is sufficient but not necessary: two structs may lead back to each other behind such a typedef and still only one takes over the table of the other. |
| PropertyTables.LocksAreDistinct | src/idlcxx/src/streamers.c:1173-1184 | Nested calls each hold a different lock, so none waits for itself, and there are no more of them than types. |
| PropertyTables.ArrayTypedefsEntangle | src/idlcxx/src/streamers.c:723-724 | Through typedefs of arrays, at which this search stops, two structs can each take over the table of the other. |
| Templates.FormatSubstitutes | src/idlcxx/src/generator.c:35-101 | Printing with a compiled template yields the template with the arguments in place of its tags, and everything else, percent signs and stray braces included, as it was. |
| Templates.FormatLength | src/idlcxx/src/generator.c:44-66 | The first scan ends, in spite of going back after an unknown tag, and counts exactly the characters of the format. |
| Templates.MakeFmtp | src/idlcxx/src/generator.c:68-101 | The second scan writes exactly the counted characters, all inside the block, and the NUL behind them. |
| Templates.WholeTagsOnly | src/idlcxx/src/generator.c:26-33 | Recognising any beginning of a token as the tag gives the format that whole tags alone would give if and only if no text in braces of the template is short for a token. |
| Templates.EmptyBraces | src/idlcxx/src/generator.c:29-30 | Empty braces stand for the first argument of every template that has one. |
| Templates.Snprintf | src/idlcxx/src/generator.c:78-78 | As much of a text as the size allows is stored, then a NUL; the full length is returned and nothing behind the NUL changes. |
| Templates.DigitsAreDecimal | src/idlcxx/src/generator.c:53-53 | Numbers are printed in decimal, the highest digit first. |
| Printers.PrintType | src/idlcxx/src/generator.c:334-351 | For every type and every buffer the printer returns the length of the whole name and stores the longest prefix that fits with a NUL. |
| Printers.PrintTemplType | src/idlcxx/src/generator.c:182-225 | The same for sequences and strings; an element type that overflows the scratch buffer of 128 characters is rendered the same. |
| Printers.PrintArrayType | src/idlcxx/src/generator.c:227-267 | The same for arrays, with the first dimension outermost. |
| Printers.WrapDimensions | src/idlcxx/src/generator.c:250-261 | Wrapping the dimensions around the element type from the last to the first renders the first as the outermost. |
| Printers.LastDimensionInnermost | src/idlcxx/src/generator.c:247-256 | The last dimension of an array is the innermost: it makes the elements arrays. |
| Printers.FillScopedName | src/idlcxx/src/generator.c:298-315 | Filling a scoped name in from its end, clipped to the buffer, stores the beginning of the name from the outermost scope on. |
| Printers.PrintScopedName | src/idlcxx/src/generator.c:281-318 | The same contract for scoped names. |
| Printers.OutermostFirst | src/idlcxx/src/generator.c:281-318 | In a scoped name the outermost scope comes first, each behind a separator. |
| Unions.LabelSelectsArm | src/idlcxx/src/types.c:642-683 | Every label, the value of a default label included, selects its own branch. |
| Unions.ArmOfMeans | src/idlcxx/src/types.c:642-683 | A discriminator selects a branch if and only if the branch has a label of that value, or has the default label and no branch has one of that value. |
| Unions.CompatibleIsSameBranch | src/idlcxx/src/types.c:1175-1182 | Two discriminators are compatible if and only if they belong to the same branch or both to the implicit default. |
| Unions.DefaultDiscriminator | src/idlcxx/src/types.c:1145-1149 | The default discriminator belongs to the default branch, to none, or to the first branch. |
| UnionClass.EmittedUnion.constructor | src/idlcxx/src/types.c:1184-1208 | A new union holds its default discriminator, and a default value in the branch that owns it. |
| UnionClass.EmittedUnion.Get | src/idlcxx/src/types.c:777-787 | A getter yields the value if its branch owns the discriminator and throws its own exception otherwise; the variant itself never throws. |
| UnionClass.EmittedUnion.Assign | src/idlcxx/src/types.c:833-838 | Assigning through the getter that returns a reference stores the value if and only if the branch owns the discriminator, and throws otherwise. |
| UnionClass.EmittedUnion.Set | src/idlcxx/src/types.c:789-799 | Setting a branch stores the value and the discriminator if the discriminator belongs to the branch, and changes nothing otherwise. |
| UnionClass.EmittedUnion.SetDiscriminator | src/idlcxx/src/types.c:736-748 | The discriminator changes if and only if the new one belongs to the same branch. |
| UnionClass.EmittedUnion.SetDefault | src/idlcxx/src/types.c:1265-1274 | The discriminator becomes one of the implicit default if and only if it belongs to no branch. |
| UnionClass.EmittedUnion.Equals | src/idlcxx/src/types.c:1219-1252 | Equality compares discriminators and the values of the selected branch, and never throws. |
| UnionClass.RunsStayConsistent | src/idlcxx/src/types.c:735-835 | Over every sequence of calls, if a branch owns the discriminator its alternative is the active one. |
| UnionClass.SetIsKept | src/idlcxx/src/types.c:735-835 | What was set stays until a branch is set or assigned to, whatever other calls are made. |
| UnionClass.LastSetCounts | src/idlcxx/src/types.c:789-799 | After any run, a set that goes through leaves its discriminator, and its getter yields its value, whatever is done to other things afterwards. |
| UnionClass.AssignCounts | src/idlcxx/src/types.c:833-838 | After any run, an assignment to the branch that owns the discriminator is what its getter yields, and leaves the discriminator. |
| TypeIdentity.TypeChecker.PushType | src/idlcxx/src/types.c:977-997 | A type is flattened into the array behind what is there, if and only if it fits into 1024 fields. |
| TypeIdentity.FixedKeepsForm | src/idlcxx/src/types.c:917-936 | Basic types are pushed as the same if and only if they have the same width, sign and sort, and what is pushed has those of the type: a long is a 32-bit integer, a long long one of 64 bits. |
| TypeIdentity.LeastInteger | src/idlcxx/src/types.c:543-573 | A bitmask is declared as the unsigned integer of the least width that holds its bits. |
| TypeIdentity.BasicSeen | src/idlcxx/src/types.c:877-997 | Arrays of basic types are taken for the same if and only if they have the same dimensions and their elements the same width, sign and sort. |
| TypeIdentity.FieldsDecode | src/idlcxx/src/types.c:877-997 | Flattening is uniquely decodable for all types: two types followed by anything have the same fields if and only if they are taken for the same C++ type, and what follows is the same. Taken for means that bitmasks are the integers they are pushed as, aliases have the dimensions of the first declarator, bounds show where the templates differ, and classes are the nodes that mention them. |
| TypeIdentity.SeenAsCpp | src/idlcxx/src/types.c:877-997 | Two types are taken for the same if and only if they are the same in C++, when bitmask bounds are away from the borders, declarators have the dimensions of the first one, templates that differ show the bound, and every class is mentioned by one node only, its definition or a forward declaration. |
| TypeIdentity.BitmaskBorders | src/idlcxx/src/types.c:941-957 | A bitmask is taken for the integer it is declared as if and only if its bound is not 8, 16 or 32. |
| TypeIdentity.LaterDeclarators | src/idlcxx/src/types.c:966-969 | An alias is taken for what it stands for if and only if its dimensions are those of the first declarator of its typedef. |
| TypeIdentity.ForwardNodes | src/idlcxx/src/types.c:959-964 | Sequences of one class, which are one type in C++, are taken for one if and only if they mention the class by the same node: not when one does by a forward declaration and the other by the definition. |
| TypeIdentity.SequenceBounds | src/idlcxx/src/types.c:892-902 | Sequences with different bounds are told apart as in C++ if and only if the template for bounded ones is that for unbounded ones or shows the bound. |
| TypeIdentity.StringBounds | src/idlcxx/src/types.c:904-914 | The same for strings with different bounds. |
| TypeIdentity.IsSameType | src/idlcxx/src/types.c:999-1029 | Two branch types compare equal if and only if they are taken for the same C++ type, which under the conditions of SeenAsCpp they are; no answer when one does not fit. |
| TypeIdentity.Deduplicate | src/idlcxx/src/types.c:1091-1115 | The list of alternatives has no two that are taken for the same C++ type and one for every branch, and under the conditions of SeenAsCpp no C++ type twice; it fails only if a type does not fit. |
| EnumDecl.EmitEnum | src/idlcxx/src/types.c:416-431 | The declaration gives every enumerator its value if and only if no enumerator with value 0 directly follows one with the largest 32-bit value. |
| EnumDecl.ProcessEnum | src/idlcxx/src/streamers.c:1575-1610 | The switch returns the first enumerator with a value; other numbers go to the default enumerator, unless an earlier one has its value and takes its label away. |
| EnumDecl.ConversionInverts | src/idlcxx/src/streamers.c:1540-1634 | For distinct values that do not wrap around, the conversion inverts the declaration and sends every other number to the default. |
| ReadLimits.EnumsAreConverted | src/ddscxx/include/org/eclipse/cyclonedds/core/cdr/cdr_stream.hpp:649-660 | Numbers that are read become enumerators by the conversion that is emitted with the enum: an unknown one becomes the default, and where the conversion has no result nothing is read. |
| Externals.External.Copy | src/ddscxx/include/dds/core/External.hpp:53-60 | A copy of a locked external has a target of its own with the same value, any other copy shares the target; copying a locked one that is not set throws. |
| Externals.External.Assign | src/ddscxx/include/dds/core/External.hpp:62-78 | A locked external rejects assignment; a locked source is copied over the existing object or into a new one; any other source is shared. |
| Externals.External.Lock | src/ddscxx/include/dds/core/External.hpp:100-107 | Locking succeeds if and only if there is a target. |
| Externals.Step | src/ddscxx/include/dds/core/External.hpp:53-107 | One operation on any of a number of externals does to the ones it names what copying, assignment and locking do, and leaves all others, and all values it does not replace, as they were. |
| Externals.Run | src/ddscxx/include/dds/core/External.hpp:53-107 | Over every sequence of creations, copies, assignments and locks, an external that was locked while no unlocked one shared its target keeps target and value and gains no sharers. |
| Externals.UnlockedSharer | src/ddscxx/include/dds/core/External.hpp:62-78 | Through an unlocked sharer the value can be made anything, and new externals can come to share the target. |
| TextBuffers.Buffer.Put | src/idlcxx/src/streamers.c:27-56 | The buffer gains the whole text: growing by chunks leaves room for it and its NUL, and the second formatting call does not cut it off. |
| TextBuffers.Buffer.Flush | src/idlcxx/src/streamers.c:154-164 | The file gains the contents of the buffer, and the buffer is empty. |
| TextBuffers.Perform | src/idlcxx/src/streamers.c:27-67 | For every sequence of puts and flushes, the file followed by the buffer holds everything put, in order. |
| MultiText.TextAsFormat | src/idlcxx/src/streamers.c:226-226 | Text that is used as a format again comes out unchanged if and only if it has no percent sign. |
| MultiText.TokensOfStreams | src/idlcxx/src/streamers.c:183-194 | {T} is the name of the function on each stream and {C} the const of those that leave the object alone; nothing else in braces is a token. |
| MultiText.PlainView | src/idlcxx/src/streamers.c:258-303 | Text without percent signs, in which no token is cut off at the end, is printed as it is with its tokens replaced. |
| MultiText.Streams.PrintUntilToken | src/idlcxx/src/streamers.c:197-236 | Every stream in the mask gains what the text up to the next token comes to as a format, if that has a result. |
| MultiText.Streams.ReplaceToken | src/idlcxx/src/streamers.c:238-256 | Every stream in the mask gains its own replacement of the token. |
| MultiText.Streams.MultiPutf | src/idlcxx/src/streamers.c:258-303 | For every text, percent signs and open tokens included, either every stream in the mask gains its own view of the text and every other stream is unchanged, or the text has no view at all: a piece of it is no format, or its last token is cut off. |

## Left out

- The XCDR headers of appendable and mutable types, delimiters, member headers, the keys of key streams, the
  walk from entity to entity by `first_entity` and `next_entity`, and fault masks: plain CDR only,
  with `start_*` and `finish_*` as brackets that do nothing.
- Optional and external members in objects: those of `Idl` have required members only. `TextSteps.PresenceRuns`
  says what the text around the code of such a member does, and the type graphs have them.
- TextRuns.FunctionRuns: for streams that are no key streams; `TextSteps.KeyStreams` says what is left out of these.
- TextMachine: the extents of arrays and the defaults of new objects come from the class that a function is for.
- Byte order: numbers are little-endian; swapping their bytes is not modelled.
- Wrap-around of positions at 2^64. The largest position is a value of its own, infinity.
- What an emitted union's variant holds while no branch owns the discriminator, in the objects of
  the streaming functions; `UnionClass` has it.
- WriteMove.WriteIsEncoding: only where aliases agree with the first declarator of their typedef, as it is false elsewhere (`Aliases.FirstDeclaratorDecides`); so are `MoveEndsWhereWriteEnds` and what builds on them.
- RoundTrip.ReadInvertsWrite: only under that condition, and where elements of vectors of booleans are booleans or bare aliases of it, as it is false elsewhere (`ReadLimits.BooleanAliasRead`).
- TypeIdentity.Deduplicate: that no C++ type is listed twice only under the conditions of `SeenAsCpp`, each of which `BitmaskBorders`, `LaterDeclarators`, `SequenceBounds`, `StringBounds` or `ForwardNodes` shows to be exact.
- MaxBound.MaxBoundsMove: only for objects whose bounded strings are full, as it is false of others; `FullStrings.BoundsLikeFull` says of which it holds, and `FullStrings.FullNotNecessary` shows that it holds of some that are not full.
- PropertyTables.CallsAreAcyclic: only for graphs in which what typedefs of arrays hide does not lead back; `ArrayTypedefsEntangle` shows that it is false of others, `HiddenCallsDecide` has the exact condition on the calls made, and `EntangledAndYetAcyclic` shows that the one on types is not necessary.
- MaxCompletes.CompletesExactly: for the emitted getters; getters that do not throw are only in `UncheckedUnionMax`.
- UnionClass.EmittedUnion.Assign: a reference that is kept over other calls and assigned to later is not modelled.
- Validation.ValidateTypes: with 128 types or more an acceptable graph may be rejected, as the code does.
- Nested types are followed to a depth that is a parameter of the semantics (`fuel`), and the
  statements hold for every depth; it stands for the depth of calls at run time.
- Generator.Streams.ProcessMember: the endpoints of keys that it adds to the key list.
- Generator.Streams.GenerateStructProperties: only the ids of the entries; their levels and flags, and the tables that follow them, are not in the text.
- Generator: the key list, bitmasks, entry-point functions, the variable that holds the properties
  of a constructed branch, and the exact C++ wording of the text. Out-of-memory errors everywhere.
- The property table as data: `Generator` has the ids of its entries, `PropertyTables` the tables
  taken over, and their levels and flags are not modelled.
- Printers: the type of a union branch as a node of its own, default values, and constant values.
- UnionClass: the argument that a setter's discriminator defaults to, and the move setters, which
  do what the copying ones do.
- EnumDecl: that a C++ enumeration with an `int` base does not compile with values beyond it.
- Externals: `get_shared_ptr`, raw pointers kept by the caller, and destruction.
- File names, include directives, guards, traits, ostream operators, and the command line.
