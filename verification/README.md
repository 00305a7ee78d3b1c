# Verification of the template engine, bignum cores, dictionaries and word counting

This project models five parts of the repository in Dafny and proves what they are for.

**The template engine** (`app/wizard/tpllib.cpp`). A template is text with fields `$<name>` and sections
between two equal tags `<!-- $<name> -->`. It is parsed into a tree; field values are set; sections are
selected, filled and appended to their parent; the whole is measured and written out; it can be copied and
reset. The model keeps the shape of the code: all templates and all nodes of added content live at addresses
of one class `Store` (`Templates.dfy`), and every operation is a method that changes the store's maps in
place, with `preceding` as an index into the node list, `addedTail` as the link that the next node is hooked
to, and the selection as the field `tpl` of each template. The invariant `SoundStore` says of every template
that its hash chains hold no key that is a prefix of an earlier one, that its section list is ordered by
position, and that its tail link is at the end of its own list.

| file | what is in it |
|---|---|
| `Bytes.dfy`, `Weaving.dfy`, `Chains.dfy` | substring search; interleaving of nodes and placed content; hash and prefix-matching chains |
| `Markup.dfy`, `Shadowing.dfy`, `ParseSteps.dfy` | the text format, its reference parser, and what prefix matching does to losslessness |
| `TemplateObjects.dfy`, `Templates.dfy` | the objects and their invariant; allocation, lookup, parsing in place |
| `Selecting.dfy`, `Setting.dfy`, `Replacing.dfy` | the selection cursor, field values, whole sections |
| `Rendering.dfy`, `Appending.dfy` | length, writing out, append by splicing lists |
| `Correspondence.dfy`, `Copying.dfy`, `CopiedSelection.dfy`, `Cloning.dfy` | deep copy, also into a new template |
| `Resetting.dfy`, `Freshness.dfy`, `TemplateRuns.dfy` | reset, fresh templates, and whole histories of operations |

**Multiply-accumulate** (`include/polarssl/bn_mul.h`): `MulAdd.dfy` (portable cores), `MulAddVector.dfy`
(vectors and the numbers they stand for), `MulAddMachine.dfy` (IA-32, SSE2 and PowerPC forms). Every core is
proved to compute the same pair of limbs, and the pair is proved to lose nothing over any number of limbs.

**CDB dictionaries** (`lib_dict/src/dict_cdb.c`): `CdbCreate.dfy` is the protocol by which processes create a
database, as a machine whose steps are the single system calls of any number of processes, each of which may
die at any point; `CdbQuery.dfy` is what is stored and what a query handle finds while it learns the key form.

**The dictionary registry and the hot-file loader** (`lib_dict/src/dict.c`): `Registry.dfy` and `HotLoad.dfy`.

**Word counting** (`app/iconv/charset.cpp`): `Utf8Count.dfy`.

Where code and comments disagree, the code is modelled: the hash is said to multiply by 31 but shifts by five
bits (`app/wizard/tpllib.cpp:176-190`), and setting a field globally is said to work everywhere in the document
(`app/wizard/lib_tpl.h:109`) but starts from the selected section (`Setting.GlobalCoversIffNothingSelected`).
Three promises do not hold of the code in full, and the exact condition is proved for each. A template gives its
text back exactly when no field is shadowed by a longer name (`Shadowing.LosslessIffNoneShadowed`, with the
counterexample `Shadowing.ShadowedExample`). A database creator starts from an empty file except where it saw an
empty file that has since been left non-empty by a creator that died (`CdbCreate.StartsEmptyIff`, with the run
`CdbCreate.StaleContentPossible`). And a dictionary is closed once, and not in use after that, exactly when no
other name holds it at the time a name's balance gets to zero (`Registry.ClosesOnceIff`, with the program
`Registry.ClosedTwice`), although the registry is meant for dictionaries with several names
(`lib_dict/src/dict.c:20-25`). Besides, an unknown name that is deleted from or traversed gets a hash table, which
has no such operation, so those calls always end the program (`Registry.UnknownDeleteEnds`).

## Model

| member | source | states |
|---|---|---|
| ByteStrings.StrStr | app/wizard/tpllib.cpp:82-108 | the position returned is that of the first occurrence in the slice, and nothing is returned only if there is none |
| Chains.Hash | app/wizard/tpllib.cpp:177-190 | the loop over the key gives the bucket used throughout; whatever follows a null byte has no part in it |
| Chains.MixBits | app/wizard/tpllib.cpp:184-187 | what a round does to each bit of the word: bits 28 to 31 are added without carry to bits 4 to 7 and cleared, all others stay |
| Chains.WordBits | app/wizard/tpllib.cpp:180-185 | characters are signed: bits 7 to 31 of the word are bit 7 of the byte |
| Chains.CounterBuckets | app/wizard/tpllib.cpp:177-190 | two names that the folding puts into different buckets |
| Chains.FindKey | app/wizard/tpllib.cpp:200-211 | a chain lookup finds the first key that the name is a prefix of, and nothing only if there is none |
| Chains.StoredKeyFindsItself | app/wizard/tpllib.cpp:200-211 | with no key a prefix of an earlier one, a stored key finds its own cell, and any other hit is on an extension |
| Chains.PutKeepsSound | app/wizard/tpllib.cpp:192-220 | find-or-create keeps every chain free of keys that are prefixes of earlier ones |
| Chains.FirstHit | app/wizard/tpllib.cpp:192-220 | over any sequence of creations, a lookup yields the earliest name of the bucket that extends the one asked for |
| Chains.ExactIffNotShadowed | app/wizard/tpllib.cpp:202 | a field gets a cell of its own name if and only if no longer name of its bucket came first |
| Chains.PutResolved | app/wizard/tpllib.cpp:228-238 | creating a cell under the name found before gives the same chains, and that name finds itself |
| Shadowing.StoredIsUnshadowed | app/wizard/tpllib.cpp:192-220 | in a stored document nothing is shadowed, so storing it again changes nothing: names are lost at most once |
| Weaving.WeaveAt | app/wizard/tpllib.cpp:1122-1169 | the interleaving by position loses and repeats nothing: where each node and each placed element comes out |
| Weaving.WovenLength | app/wizard/tpllib.cpp:1098-1114 | its length is the sum of both kinds, whatever the positions |
| Weaving.WeaveAcrossEmpty | app/wizard/tpllib.cpp:1017-1059 | nodes may be written in one run across sections that contribute nothing |
| Markup.ParseIsLossless | app/wizard/tpllib.cpp:274-400 | what the parser accepts unparses to exactly the text, at every depth |
| Markup.ParseIsComplete | app/wizard/tpllib.cpp:274-400 | every canonical document is what its own text parses to |
| Markup.ParseCharacterized | app/wizard/tpllib.cpp:274-400 | a text parses to a document if and only if the document is canonical and unparses to the text |
| Shadowing.UnchangedIffNoneShadowed | app/wizard/tpllib.cpp:192-220 | the tree holds the names of the text if and only if no field is shadowed |
| Shadowing.LosslessIffNoneShadowed | app/wizard/tpllib.cpp:274-400 | the stored template unparses to its text if and only if no field, at any level, is shadowed |
| Shadowing.ShadowedExample | app/wizard/tpllib.cpp:202 | a text whose second field is stored under the first field's longer name |
| Shadowing.FoldedExample | app/wizard/tpllib.cpp:177-190 | a text whose second field is not shadowed only because of that |
| ParseSteps.HeadStaysInRest | app/wizard/tpllib.cpp:298-304 | testing for a section head from one byte before the slice never reaches into text already consumed |
| ParseSteps.CleanIff | app/wizard/tpllib.cpp:177-190 | what is asked of a text, where it parses, is no more than that all names of its document are non-empty and free of NUL |
| Templates.Store.constructor | app/wizard/tpllib.cpp:402-409 | an empty store satisfies the invariant |
| Templates.Store.Alloc | app/wizard/tpllib.cpp:402-409 | a new template is empty, selects itself, has its tail at its own head, and is at a new address |
| Templates.Store.ProduceField | app/wizard/tpllib.cpp:192-220 | finds the first cell the key is a prefix of, or appends a new one when allowed |
| Templates.Store.AppendField | app/wizard/tpllib.cpp:377-383 | a field node refers to the cell found or made, and all chains stay sound |
| Templates.Store.GetSection | app/wizard/tpllib.cpp:241-256 | finds the first section of the bucket whose key extends the one asked for |
| Templates.Store.NewSection | app/wizard/tpllib.cpp:241-263 | makes a section at the current position exactly when no section with such a key is there |
| Templates.Store.Construct | app/wizard/tpllib.cpp:274-400 | succeeds exactly when the slice parses, and then the tree in the store is the document of that slice, with nothing set, selected or appended; when it fails, the template is left as a sound part of one, or, exactly when the failure was inside a section, with a last section that is empty and has lost its parent; either way all other templates are untouched |
| ParseSteps.TagFacts | app/wizard/tpllib.cpp:298-364 | at a section tag the parse fails before a section is made (name taken), or inside the new one (no second tag, or a body that does not parse), or goes on behind the second tag with the section in the document |
| TemplateObjects.SectionOrphaned | app/wizard/tpllib.cpp:328-356 | a section whose content could not be read is the last one of its template, found by its name, empty, and without a parent |
| Selecting.OrphanBreaksDeselect | app/wizard/tpllib.cpp:897-906 | such a section is found by its name and can be selected, and then deselecting would write through its null parent |
| ParseSteps.OpenTagFails | app/wizard/tpllib.cpp:328-356 | that is what becomes of every text that ends in an opening tag, with no field or section before it |
| ParseSteps.OpenTagExample | app/wizard/tpllib.cpp:298-304 | the shape of a tag, byte for byte: the one-tag text `<!-- $<a> -->` fails in this way |
| Templates.Store.LoadTag | app/wizard/tpllib.cpp:298-364 | a tag is a section with the content up to the next equal tag, or makes the whole parse fail |
| Templates.Store.LoadBody | app/wizard/tpllib.cpp:328-357 | the section's own tree is the document of the text between the two tags |
| TemplateObjects.NewCellKeepsFields | app/wizard/tpllib.cpp:213-217 | a new cell at the end of its chain keeps the chains free of prefixes and in order of first reference |
| TemplateObjects.SectionAppended | app/wizard/tpllib.cpp:241-263 | so does a new section, and the section list stays in order of position |
| TemplateObjects.DocumentFrame | app/wizard/tpllib.cpp:274-400 | the document of a template depends only on the nodes and sections at or below it |
| Selecting.SelectKeeps | app/wizard/tpllib.cpp:885-895 | selecting keeps the links one path of nested sections, longer by the section selected |
| Selecting.DeselectKeeps | app/wizard/tpllib.cpp:897-906 | deselecting keeps it, shorter by one |
| Selecting.DeselectUndoesSelect | app/wizard/tpllib.cpp:885-906 | after a selection, deselecting restores every link of the store |
| Selecting.SelectSection | app/wizard/tpllib.cpp:885-895 | selects exactly the section found by name in the selected one, and reports when there is none |
| Selecting.DeselectSection | app/wizard/tpllib.cpp:897-906 | goes back to the parent, and fails exactly when nothing is selected |
| Setting.SetField | app/wizard/tpllib.cpp:696-708 | sets the cell that the name finds in the selected section, and nothing else |
| Setting.SetShows | app/wizard/tpllib.cpp:696-708 | exactly the nodes of the cell hit show the new value |
| Setting.SetFieldGlobal | app/wizard/tpllib.cpp:813-823 | sets the field in exactly the templates that some template of the tree links to |
| Setting.GlobalCoversIffNothingSelected | app/wizard/tpllib.cpp:813-823 | every section of the document is reached if and only if nothing is selected |
| Replacing.SetSection | app/wizard/tpllib.cpp:910-975 | the section found becomes a single text and a single added node with the value; the path stays; it fails exactly when there is no such section |
| Replacing.ReplacedShows | app/wizard/tpllib.cpp:910-975 | the section then renders as the value and has it as its added content; no other added content differs |
| Replacing.ReplaceAdded | app/wizard/tpllib.cpp:936-964 | whatever was appended before, one node remains, reused if its length fits, with the tail at its end |
| Replacing.ReplaceKeepsSelection | app/wizard/tpllib.cpp:916-931 | replacing a section keeps the selection |
| Rendering.Length | app/wizard/tpllib.cpp:1098-1114 | is the number of bytes of the rendering |
| Rendering.GetContent | app/wizard/tpllib.cpp:1122-1169 | writes exactly the rendering and a terminator, and no byte behind it |
| Rendering.RunLength | app/wizard/tpllib.cpp:1098-1169 | at every point what has been written fits into the measured length |
| Rendering.CopyAdded | app/wizard/tpllib.cpp:1146-1151 | copies the bytes of a whole added list, in order |
| Appending.HookText | app/wizard/tpllib.cpp:1029-1031 | a new node at the tail link extends exactly its own list and leaves the tail at its end |
| Appending.Splice | app/wizard/tpllib.cpp:1053-1057 | moves a whole list behind another, empties it, and leaves both tails at their own ends |
| Appending.Coalesce | app/wizard/tpllib.cpp:1022-1051 | measures and copies a run of nodes into one text |
| Appending.AppendSection | app/wizard/tpllib.cpp:1007-1095 | the selected section's added bytes grow by exactly its rendering, every section directly inside it is left with none, nothing else changes; fails exactly when nothing is selected |
| Appending.RelistSound | app/wizard/tpllib.cpp:1007-1095 | relinking some added lists keeps the whole store sound when those are whole again and share no node with others |
| Correspondence.SiblingsApart | app/wizard/tpllib.cpp:575-693 | two sections of a template have no template below them in common |
| Correspondence.CopyRendersEqual | app/wizard/tpllib.cpp:575-693 | a copy renders as its original |
| Copying.NextField | app/wizard/tpllib.cpp:228-238 | looking a copied cell up by its key leads to the place it has in the original's chain, or to the end of the chain when it is next |
| Copying.NextSectionIsNew | app/wizard/tpllib.cpp:614-619 | no section copied so far keeps the next one from being made |
| Copying.CopyNode | app/wizard/tpllib.cpp:584-612 | one more node is copied, its cell found or made, with the value |
| Copying.GatherAdded | app/wizard/tpllib.cpp:624-652 | the bytes of an added list, in one buffer of the measured size |
| Copying.PrepareSection | app/wizard/tpllib.cpp:614-652 | the new section has the same key and position and the same added bytes, in a list of its own |
| Copying.AdjustSelection | app/wizard/tpllib.cpp:547-571 | the copy's link is set to the counterpart of the original's, wherever in the tree that is, and nothing else changes |
| Copying.CopySection | app/wizard/tpllib.cpp:582-659 | one more section is copied, with all that is inside it |
| Copying.CopyTemplate | app/wizard/tpllib.cpp:575-693 | every template of the tree gets a copy with the same nodes, values, sections, positions, added bytes and link; the copies are new and distinct, and nothing that was there changes |
| CopiedSelection.CopyRendersAsBefore | app/wizard/tpllib.cpp:575-693 | every copy is a template of its own and renders as its original did before |
| CopiedSelection.CopiedDocument | app/wizard/tpllib.cpp:575-693 | the copy is the same document at all depths |
| CopiedSelection.CopiedPath | app/wizard/tpllib.cpp:547-571 | the way down to a copy is the copy of the way down |
| CopiedSelection.SelectionSurvives | app/wizard/tpllib.cpp:547-571 | copying leaves the selection in the original as it is |
| CopiedSelection.CopyIsSelected | app/wizard/tpllib.cpp:547-571 | for any original with a selection and any target nobody has for a parent, the copy has a valid selection, the counterpart of the original's path, and the original keeps its own |
| CopiedSelection.SelectionLinksDown | app/wizard/tpllib.cpp:547-571 | any template in use meets what a copy asks of its links |
| CopiedSelection.MadeIsCopied | app/wizard/tpllib.cpp:575-693 | no copy is one of the originals |
| CopiedSelection.NothingShared | app/wizard/tpllib.cpp:622-652 | no node of added content is in two templates, original or copy |
| Cloning.Clone | app/wizard/tpllib.cpp:402-409 | allocating a template and copying one in use into it: the copy is the same document, every template in it renders as its original did before, both are selected in the same way, and nothing that was there changes |
| Resetting.ClearFields | app/wizard/tpllib.cpp:516-526 | empties the values of one template and nothing else |
| Resetting.DropAdded | app/wizard/tpllib.cpp:530-537 | empties one added list and points its tail at its head |
| Resetting.Reset | app/wizard/tpllib.cpp:511-542 | empties the values of the template and all sections inside it and the added lists of these sections, and changes nothing else |
| TemplateRuns.CrashesIff | app/wizard/tpllib.cpp:910-934 | writing through the null pointer takes a section whose whole document is one field, found by the name and replaced by nothing, and nothing else does |
| TemplateRuns.Perform | app/wizard/tpllib.cpp:511-1095 | every operation, with any arguments, does what is said of it or crashes, and it crashes exactly when a section whose document is one field is to be replaced by nothing; the store stays sound, the selection stays valid, and all but set-section keep the shape of every template |
| TemplateRuns.Run | app/wizard/tpllib.cpp:511-1095 | over any sequence of operations, set-section, reset and copy among them, each did what is said of it, one after the other, up to the first that crashes; store and selection stay valid throughout |
| Freshness.SelectionSame | app/wizard/tpllib.cpp:885-906 | the selection depends on links, sections and parents only |
| Freshness.ParsedIsReady | app/wizard/tpllib.cpp:274-400 | a template just parsed into a new one has nothing set, selected or appended in any section, and has a valid selection |
| Freshness.ResetIsFresh | app/wizard/tpllib.cpp:511-542 | after any history a reset makes each section render as when the template was fresh |
| Freshness.FreshRendersPlain | app/wizard/tpllib.cpp:1122-1169 | a fresh template renders as the plain text of its document: its fields and sections contribute nothing |
| TemplateRuns.RunThenReset | app/wizard/tpllib.cpp:511-542 | a fresh template, any history without set-section, which did what it does, and a reset of all of it: same document, same rendering of every section, every added list empty with its tail at its head, and a valid selection to go on with |
| TemplateRuns.Read | app/wizard/tpllib.cpp:274-409 | a text read into a new template: it is fresh, holds the document, and unparses to the text exactly when no field of the text is shadowed; whether or not the text parses, no other template is touched |
| TemplateRuns.ReadRunReset | app/wizard/tpllib.cpp:274-542 | from the text on: a new template, parsed, used and reset, holds the document of the text and renders its plain text, as does every section |
| MulAdd.StepFits | include/polarssl/bn_mul.h:829-843 | destination, product and carry fit in two limbs |
| MulAdd.WrapDetected | include/polarssl/bn_mul.h:838-839 | comparing a wrapped sum with a summand finds every carry and no other |
| MulAdd.AddTo | include/polarssl/bn_mul.h:838-839 | adds a limb to a pair of limbs without losing a carry |
| MulAdd.LongCore | include/polarssl/bn_mul.h:834-840 | the core with a double-width product computes the step |
| MulAdd.CrossTermsSplit | include/polarssl/bn_mul.h:854-860 | the four half products, with the cross terms cut and shifted, add up to the whole product |
| MulAdd.HalfCore | include/polarssl/bn_mul.h:846-865 | the core with half-limb products computes the same step, at every even width |
| MulAddVector.StepsAddProduct | include/polarssl/bn_mul.h:25-26 | over any number of limbs, result and final carry stand for destination plus source times multiplier plus first carry |
| MulAddVector.StepsJoin | include/polarssl/bn_mul.h:25-26 | going on with the carry a run left is one longer run |
| MulAddVector.BlocksAddProduct | include/polarssl/bn_mul.h:25-26 | so however the limbs are cut into blocks, of eight and of one for instance, cores that do each block as single steps would add the product over the whole vector |
| MulAddVector.LongVector | include/polarssl/bn_mul.h:829-843 | the loop over two arrays computes the steps in place, and so that equation |
| MulAddMachine.Ia32Core | include/polarssl/bn_mul.h:58-66 | the core with add-with-carry computes the step |
| MulAddMachine.Ppc64Core | include/polarssl/bn_mul.h:313-321 | the carry split between register and flag stands for the plain one and never exceeds a limb |
| MulAddMachine.Ppc64Vector | include/polarssl/bn_mul.h:303-333 | the loop with the split carry leaves the plain limbs and the plain carry |
| MulAddMachine.LaneIsStep | include/polarssl/bn_mul.h:70-131 | a lane that sums product and destination before the carry does not overflow and splits into the plain limb and carry |
| MulAddMachine.Huit | include/polarssl/bn_mul.h:70-131 | the eight-limb block leaves what eight single steps leave, and no 64-bit addition in it wraps |
| CdbCreate.LocksStep | lib_dict/src/dict_cdb.c:339-358 | every step keeps locks exclusive and held by the processes that took them |
| CdbCreate.InvStep | lib_dict/src/dict_cdb.c:267-365 | every step of any process keeps the invariant of the protocol |
| CdbCreate.OwnershipIsExclusive | lib_dict/src/dict_cdb.c:327-359 | in every run at most one process is between comparison and rename, and the temporary name is that of the file it has locked |
| CdbCreate.PublishedFrozen | lib_dict/src/dict_cdb.c:283-289 | no step changes a file that is published or open for reading |
| CdbCreate.ReaderSeesOneDatabase | lib_dict/src/dict_cdb.c:143-147 | a reader has the finished content before it from open to close, whatever others do |
| CdbCreate.DatabaseStaysWhole | lib_dict/src/dict_cdb.c:278-289 | whatever the name of the database refers to is as its creator finished it |
| CdbCreate.NameStays | lib_dict/src/dict_cdb.c:278-289 | a name for the database never goes away |
| CdbCreate.HoldsOwnWrites | lib_dict/src/dict_cdb.c:197-242 | while a creator writes, its file holds what it began with and its own writes over that, in order, whatever others do |
| CdbCreate.DatabaseIsOneDraft | lib_dict/src/dict_cdb.c:197-289 | where no creator dies at its work, the named database is byte for byte what one process wrote on an empty file between its start and its end |
| CdbCreate.RenamePublishes | lib_dict/src/dict_cdb.c:278-289 | in any run, the rename by a process that has finished a file makes that file the named database, with what it held when it was finished |
| CdbCreate.AnythingCanBePublished | lib_dict/src/dict_cdb.c:267-365 | from any state without a temporary file, an idle process can put any bytes in place of the database and disturbs nobody |
| CdbCreate.AnyDatabase | lib_dict/src/dict_cdb.c:267-365 | any bytes can come to be the database, be opened, and be replaced by any others while the reader still has the first |
| CdbCreate.OverlayBytes | lib_dict/src/dict_cdb.c:242 | what a write at a position does to each byte of the file |
| CdbCreate.StartsEmptyIff | lib_dict/src/dict_cdb.c:361-365 | a creator starts from an empty file unless it saw size zero and the file is not empty any more |
| CdbCreate.StartsEmptyUnlessLeft | lib_dict/src/dict_cdb.c:361-365 | that takes a creator that died writing this very file |
| CdbCreate.StartsEmptyWhereNoneDies | lib_dict/src/dict_cdb.c:327-365 | in runs where no creator dies at its work, every creator starts from an empty file |
| CdbCreate.StaleContentPossible | lib_dict/src/dict_cdb.c:361-365 | a run in which a creator writes over what a dead one left |
| CdbQuery.FindFirst | lib_dict/src/dict_cdb.c:80-96 | the assumed contract of the database library's search: the value of the first record with the key, and nothing only if there is none |
| CdbQuery.FindAfterPut | lib_dict/src/dict_cdb.c:234-242 | what each way of putting does to what is found under any key |
| CdbQuery.Maker.Update | lib_dict/src/dict_cdb.c:197-263 | folds and extends name and value by the flags, puts them by the duplicate mode, and says when a duplicate is fatal |
| CdbQuery.StoredIsFound | lib_dict/src/dict_cdb.c:197-263 | each name yields the bytes of an entry with that name, followed by one null byte exactly if the flags ask for it: of the last such entry if duplicates replace and are not ignored, of the first otherwise; and nothing if there is none |
| CdbQuery.SameKey | lib_dict/src/dict_cdb.c:209-226 | two names have one key exactly if they are equal, or, with folding, equal up to the case of ASCII letters |
| CdbQuery.SessionForm | lib_dict/src/dict_cdb.c:383-389 | all keys of one session have the null byte or none has |
| CdbQuery.QueryHandle.Lookup | lib_dict/src/dict_cdb.c:68-116 | whatever has been learned, the answer is that of trying both forms; a hit settles the form |
| CdbQuery.QueryHandle.LookupAll | lib_dict/src/dict_cdb.c:68-116 | so it is over any run of lookups |
| CdbQuery.QueryFindsStored | lib_dict/src/dict_cdb.c:183-186 | trying both forms finds what was stored under the form of the session |
| CdbQuery.ThereIffRepeated | lib_dict/src/dict_cdb.c:243-259 | a put reports a duplicate exactly when an earlier entry has the same name, up to case when that is folded |
| CdbQuery.StoreAll | lib_dict/src/dict_cdb.c:197-263 | a session ends fatally exactly when duplicates are neither ignored, replaced nor only warned of and some entry repeats a name |
| CdbQuery.StoreAndQuery | lib_dict/src/dict_cdb.c:45-263 | unless it does, an undecided handle on what the session wrote answers every name with the bytes of the entry that counts for it, and with nothing exactly for a name never stored |
| Registry.Registry.Register | lib_dict/src/dict.c:51-67 | adds one to the count of a name or makes it, and is fatal exactly for another dictionary under the same name or before initialisation; a dictionary may get any number of names |
| Registry.Registry.Handle | lib_dict/src/dict.c:71-76 | finds the dictionary last registered under a name exactly while the name's balance is positive, and never a closed one as long as each dictionary has one name |
| Registry.Registry.Unregister | lib_dict/src/dict.c:80-104 | closes the dictionary at the step the balance gets to zero and only then; panics exactly for a name without balance |
| Registry.Registry.Reach | lib_dict/src/dict.c:108-125 | an unknown name is registered with a new hash table exactly when that is allowed, then the dictionary it holds is used |
| Registry.Registry.Use | lib_dict/src/dict.c:108-128 | then the dictionary's own operation is called, which ends the program where the dictionary has none; a hash table has only lookup and update |
| Registry.Registry.Delete | lib_dict/src/dict.c:158-185 | the program goes on exactly for a known name with a dictionary that is no hash table and has deletion, if the entry was there or unknown names are allowed |
| Registry.Registry.Lookup | lib_dict/src/dict.c:132-156 | an unknown name is not registered; the program goes on exactly if the entry was found or unknown names are allowed, and a known dictionary has lookup |
| Registry.Registry.Perform | lib_dict/src/dict.c:51-259 | each call adds to the history, and ends the program or not, as the balance of its name, the dictionary it holds and the operations of that one tell |
| Registry.Registry.Run | lib_dict/src/dict.c:51-259 | the history of any program is the one its calls tell, up to the call that ends it; without second names every dictionary is closed at most once and none is used after that |
| Registry.UnknownDeleteEnds | lib_dict/src/dict_alloc.c:26-63 | deleting from an unknown name or traversing it ends the program, even where unknown names are allowed |
| Registry.DeletedWasRegistered | lib_dict/src/dict_ht.c:60-63 | a program goes on after deleting or traversing only if the name holds a dictionary that it registered itself and that is no hash table |
| Registry.NewNameIsUsable | lib_dict/src/dict_ht.c:60-63 | where unknown names are allowed, updating a new name and then finding an entry in it goes well, in a hash table made for the name |
| Registry.ClosesOnceIff | lib_dict/src/dict.c:80-104 | a closing keeps it that every dictionary is closed at most once and none in the table is closed, if and only if no other name holds the same dictionary |
| Registry.ClosedTwice | lib_dict/src/dict.c:80-104 | a program in which a dictionary with two names is closed twice |
| Registry.OtherNames | lib_dict/src/dict.c:51-67 | as long as each dictionary is registered under one name, no two names of the table hold the same one |
| Registry.RegisteredSound | lib_dict/src/dict.c:51-67 | a registration keeps counts equal to balances, and, for dictionaries with one name, each closed at most once and never used afterwards |
| Registry.UnregisteredSound | lib_dict/src/dict.c:80-104 | so does an unregistration, with the closing it brings about |
| Registry.UsedSound | lib_dict/src/dict.c:116-127 | so does a use through the table |
| Registry.AtZeroClosed | lib_dict/src/dict.c:102-103 | a closing follows exactly the unregistration that got the balance to zero |
| HotLoad.AgreesMore | lib_dict/src/dict.c:301-306 | reading lines in order leaves each key with its last value |
| HotLoad.InvStep | lib_dict/src/dict.c:274-285 | every step of clock, writer and loader keeps the invariant |
| HotLoad.StableRead | lib_dict/src/dict.c:263-308 | if the load ends, one version was current throughout the last pass and the dictionary agrees with it on all its keys, later lines winning, whatever reads that fell into changes delivered, and even if changes are stamped up to a second late |
| HotLoad.LoadMerges | lib_dict/src/dict.c:274-306 | at any point of a load every key that was in the dictionary still is, and every key with its value was there before or stands in a line of some version, or in one delivered by a read that fell into a change |
| HotLoad.OthersLeftAlone | lib_dict/src/dict.c:301-306 | a key that no line has is in the dictionary exactly if it was, with the value it had |
| HotLoad.NeverAhead | lib_dict/src/dict.c:281 | with one clock the second half of the exit test never fires; the loop ends exactly by the first |
| HotLoad.QuietFileEndsTheLoop | lib_dict/src/dict.c:274-285 | once nobody writes a well-formed file and two seconds have gone by, the loop ends within the pass under way and one more, and within one pass when that began two seconds after the change |
| HotLoad.LoadEnds | lib_dict/src/dict.c:263-308 | so it does from every state that clock, writer and loader can get into, unless a malformed line ended the program before |
| HotLoad.OldKeysMayRemain | lib_dict/src/dict.c:274-285 | a key that is gone from the file may stay in the dictionary |
| Utf8Count.EncodeDecoded | app/iconv/charset.cpp:9-26 | the reference decoder after RFC 3629 yields characters that encode to the text again |
| Utf8Count.DecodeEncoded | app/iconv/charset.cpp:9-26 | and the encoding of any valid characters is decoded to them |
| Utf8Count.WellFormedIff | app/iconv/charset.cpp:9-26 | so a text is accepted if and only if it is valid UTF-8 |
| Utf8Count.Examples | app/iconv/charset.cpp:9-26 | characters of one to four bytes from the examples of RFC 3629, section 7 |
| Utf8Count.LengthIsFront | app/iconv/charset.cpp:9-26 | at a character boundary the first byte tells the character's length |
| Utf8Count.ListedIff | app/iconv/charset.cpp:28-54 | a number is listed exactly if the three bytes it stands for are in the list, at a place where a word begins |
| Utf8Count.WordFind | app/iconv/charset.cpp:28-54 | the binary search finds a word exactly if it is in the list |
| Utf8Count.ShortCount | app/iconv/charset.cpp:60 | the scan stops early only where no three-byte character can be |
| Utf8Count.Count | app/iconv/charset.cpp:56-74 | on well-formed text the count is the number of decoded characters that are in the list |

## Left out

- Templates.Store.Construct: names must be non-empty and free of NUL (the hash runs past an empty key), and the byte before the outermost buffer must not be `<`, since the head test looks one byte back.
- Replacing.SetSection: an empty value for a section that is a single field is excluded, since the code then writes through a null text pointer; the histories of `TemplateRuns` take such calls and end there.
- Copying.CopyTemplate: the target is an empty template that is not part of the source, as `app/wizard/lib_tpl.h` asks; copying onto a used template is not described.
- Rendering.GetContent: lengths are unbounded integers; wrap-around of `int` lengths is not modelled.
- MulAddMachine.Huit: source and destination are different arrays; overlapping vectors are not modelled.
- Registry.Registry.Register: over whole programs, closed once and never used afterwards is claimed where each dictionary has one name and is not registered again once closed (`Registry.Proper`); for the others see `Registry.ClosesOnceIff`. A dictionary without a close operation of its own is not modelled.
- HotLoad.StableRead: a change is stamped with the current second or the one before; a file moved in with an older time stamp is not covered, and files are sequences of logical lines, already split. The dictionary is what its `update` was given: a hash table stores the bytes of a value without a terminator (`lib_dict/src/dict.c:305`, `lib_dict/src/dict_ht.c:40`) while its lookup measures them with `strlen` (`lib_dict/src/dict_ht.c:24`), so what `dict_lookup` then yields from one is not described.
- CdbCreate.InvStep: file contents are bytes written at any position; the format of a CDB file, the locking primitive and `rename` themselves are taken as atomic, and inode numbers are not reused while named or open.
- CdbQuery.FindFirst: the library's search and put are modelled by their contracts; read errors, the `size` result and the build without duplicate modes are left out, as are names with NUL and folding of non-ASCII letters.
- Utf8Count.Count: the word list is a parameter (strictly sorted); `chinese_utf8.h` is not part of this model.
- Memory: addresses of the store are never reused, so a released template or node stays in the maps unreachable; allocation sizes and the growth of value buffers are not modelled.
- Field cells and parsed nodes are parts of their template's record, so they cannot be shared between templates by construction; added nodes are separate and their separation is proved.
- File, socket and stream output (`tpl_load`, `tpl_save_as`, `tpl_write`, `tpl_http_write`, `tpl_out`, the `_from_file` setters) and number and printf formatting of field values: I/O and foreign calls.
- `dict_walk`, `dict_eval`, `dict_flags_str` and the dictionaries' own operations behind the registry, which are events here.
- The other assembly variants of the multiply-accumulate, which repeat the same equation.
