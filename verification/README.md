# Verified models of libostree cores

This project models the in-memory cores of libostree (the library behind `ostree`, a
content-addressed store of operating system trees) and proves what they are for. Each model keeps
the form of the code: objects with fields are classes, loops are loops, and each of them is tied to
a plain mathematical description whose properties are proved separately.

* **Mutable tree** (`DirTrees`, `Worlds`, `TreePaths`, `WorldEdits`, `WorldSteps`, `LazyMarks`,
  `TreeCommands`, `TreeLaws`, `TreeSteps`, `MutableTrees`, `TreeSessions`). A heap of directory
  nodes with parent pointers, loaded lazily from the store, with cached Merkle checksums that are
  cleared upwards by a loop that stops early. `Worlds` describes a heap as a snapshot and states the
  invariant; `Abs` is the directory tree a node stands for. Every method keeps the invariant and
  performs its pure operation on every tree at once. `TreeSessions.Session` puts this together for
  whole runs, commits included: the lazy object and the pure interpreter of `TreeCommands` cannot be
  told apart. `TreeSessions.Compose` adds the one operation that can tell, against a reference that
  also knows which directories have been loaded.
* **Kernel arguments** (`KernelArgText`, `KernelArgSpec`, `KernelArgLaws`, `KernelArgs`). The splitter and
  printer; the operations on a plain sequence and their laws; and the object with its order list and
  its index over shared entries, which refines the plain sequence.
* **Rolling checksum** (`Rollsums`). Wrapping incremental sums against a closed form over the last 64
  bytes, and the least split point.
* **Tree comparison** (`Diffs`, `DiffItems`). The recursive comparison with its checksum shortcut
  against a description by paths.
* **Metalink parser** (`Metalinks`, `MetalinkOwners`, `MetalinkDocuments`). The parser without a stack
  against one with a stack, which element each collected text comes from, and what a whole document
  means.
* **Progress notifier** (`AsyncProgress`). The critical sections as methods, and all interleavings of
  their steps as a transition system.
* **Canonical encodings** (`Xattrs`, `ChecksumText`, `DeltaPaths`). Extended attributes, checksums in
  hexadecimal and in the modified form of section 4 of RFC 4648, and delta paths.
* **Boot entries** (`Bootconfigs`) and the **Bloom filter** (`Blooms`).

`Options` holds the shared types. `dafny verify dfyconfig.toml` checks everything.

## Findings

Places where the code does something that its documentation or a first reading does not suggest. The
models follow the code.

* `ostree_mutable_tree_fill_empty_from_dirtree` is described as succeeding when the given tree is
  empty or equal. For a node that has been loaded and is not empty it returns FALSE even then. This is
  the one operation through which laziness shows (`TreeSessions.FillShowsLaziness`);
  `TreeSteps.FillsIff` is the exact condition for success.
* `ostree_kernel_args_append` keeps empty tokens of repeated spaces as empty arguments;
  `ostree_kernel_args_parse_append` drops them. `KernelArgText.AppendIsParse` is the exact condition,
  `KernelArgLaws.AppendKeepsEmpty` an input.
* `ostree_kernel_args_delete` and `ostree_kernel_args_new_replace` are not all or nothing: they keep the
  effect of the tokens before a failing one. `KernelArgLaws.DeleteUnchangedIff` and
  `KernelArgLaws.ReplaceUnchangedIff` say when a failed call changed nothing,
  `KernelArgLaws.DeleteKeepsEffect` and `KernelArgLaws.ReplaceKeepsEffect` are inputs.
* The comment on `ostree_kernel_args_new_replace` says that `key=new` works on several values when one
  of them is empty. The code refuses it (`KernelArgLaws.ReplaceNeedsOld`);
  `KernelArgSpec.ReplaceValueStatus` is the exact condition for success.
* `ostree_kernel_args_replace` does not split its argument, so it can enter a value with open spaces,
  which does not survive printing (`KernelArgLaws.ReplaceUnprintable`).
  `KernelArgLaws.ReplacePrintableIff` says exactly for which arguments the list survives.
* The comparison lists a path that changed its type as modified and never looks below it, so contents
  that came or went with the change are in no list. `Diffs.AccountedIff` is the exact condition.
* The bit count of `bupsplit_find_ofs` skips bit 13 of the digest: it shifts before the first look. It
  is the true length of the run of ones exactly under the condition of `Rollsums.CountIsRunIff`;
  `Rollsums.CountSkipsBit13` is a digest where it is not.
* The metalink parser may combine the URLs of one `file` element with the size and hashes of an earlier
  one of the same name (`MetalinkOwners.MixedIsAccepted`). `MetalinkOwners.SameFileIff` is the exact
  condition on runs, `MetalinkDocuments.DocumentDecides` on documents.
* Sorting extended attributes by name fixes the result only if attributes of one name are equal
  (`Xattrs.OneFormIff`).

## Model

| member | source | states |
|---|---|---|
| `DirTrees.ResolveHash` | src/libostree/ostree-repo-commit.c:4114-4126 | the tree that a stored checksum stands for has that checksum as its Merkle hash, through all levels |
| `DirTrees.ContentsHashInjective` | src/libostree/ostree-repo-commit.c:4076-4138 | trees with equal contents checksums have equal files and equal subdirectories at every depth |
| `Worlds.CacheIsRight` | src/libostree/ostree-mutable-tree.c:68-80 | in every state that meets the invariant, a cached contents checksum is the Merkle hash of the directory tree the node stands for at that moment |
| `WorldSteps.NoneGoesUp` | src/libostree/ostree-mutable-tree.c:70-74 | a node without a cached checksum has no ancestor with one, however far up |
| `WorldSteps.ClearUpIsCleared` | src/libostree/ostree-mutable-tree.c:163-174 | the loop that stops at the first cleared node clears exactly what clearing every ancestor would clear |
| `WorldSteps.ClearUpRestores` | src/libostree/ostree-mutable-tree.c:163-174 | after a change at one loaded node, clearing upwards restores the whole invariant |
| `WorldSteps.WithMetaKeeps` | src/libostree/ostree-mutable-tree.c:246-255 | changing metadata clears the ancestors and nothing beside or below them |
| `WorldSteps.WithoutChildKeeps` | src/libostree/ostree-mutable-tree.c:143-153 | detaching a child keeps the forest shape and every other cache |
| `WorldSteps.WithChildKeeps` | src/libostree/ostree-mutable-tree.c:135-141 | attaching a new child keeps the forest shape and all caches |
| `WorldSteps.LoadKeeps` | src/libostree/ostree-mutable-tree.c:177-233 | loading a lazy node changes the tree of no node at all and keeps the invariant |
| `WorldEdits.GraftAt` | src/libostree/ostree-mutable-tree.c:293-378 | an edit at a node is an edit at that path in the tree of every ancestor |
| `WorldEdits.FrameAt` | src/libostree/ostree-mutable-tree.c:293-378 | an edit at a node leaves the trees of all nodes that are not above it as they were |
| `WorldEdits.GetAtAbs` | src/libostree/ostree-mutable-tree.c:546-567 | following child pointers reaches the node that stands for the subtree at that path |
| `MutableTrees.MutableTree.Invalidate` | src/libostree/ostree-mutable-tree.c:163-174 | the loop computes ClearUp; nothing but contents checksums changes |
| `MutableTrees.MutableTree.Populate` | src/libostree/ostree-mutable-tree.c:199-222 | the tables become those of the stored object, with one fresh lazy child for each subdirectory |
| `MutableTrees.MutableTree.MakeWhole` | src/libostree/ostree-mutable-tree.c:177-233 | fails exactly when the object is missing from the repository, and then changes nothing; otherwise loads the node without changing any tree |
| `MutableTrees.MutableTree.SetMetadata` | src/libostree/ostree-mutable-tree.c:246-255 | an equal checksum changes nothing; another is stored and the caches above are cleared |
| `MutableTrees.MutableTree.SetContents` | src/libostree/ostree-mutable-tree.c:263-278 | under the documented duty of the caller, storing a checksum keeps the invariant and every tree |
| `MutableTrees.MutableTree.ReplaceFile` | src/libostree/ostree-mutable-tree.c:293-309 | does to the tree of every node what the pure operation does, with the same reply; a failed load changes nothing |
| `MutableTrees.MutableTree.Remove` | src/libostree/ostree-mutable-tree.c:322-341 | the same for removal of a file or of a whole directory, with and without allow_noent |
| `MutableTrees.MutableTree.EnsureDir` | src/libostree/ostree-mutable-tree.c:353-378 | the same for directories, and the node returned is the one in the table |
| `MutableTrees.MutableTree.Lookup` | src/libostree/ostree-mutable-tree.c:394-416 | answers as on the pure tree, and changes no tree |
| `TreeLaws.LookupIff` | src/libostree/ostree-mutable-tree.c:394-416 | a directory is found exactly for a subdirectory name, a file with its checksum exactly for a file name, nothing exactly for any other name |
| `TreeLaws.ReplaceFileIff` | src/libostree/ostree-mutable-tree.c:293-309 | exactly when each reply is given; after Done the name is that file and every other entry is as it was |
| `TreeLaws.RemoveIff` | src/libostree/ostree-mutable-tree.c:322-341 | exactly when each reply is given, with and without allow_noent; after Done the name is gone and every other entry is as it was |
| `TreeLaws.EnsureDirIff` | src/libostree/ostree-mutable-tree.c:353-378 | exactly when each reply is given; a new directory is empty and without metadata, an old one and every other entry are as they were |
| `TreeLaws.SetMetadataIs` | src/libostree/ostree-mutable-tree.c:246-255 | the metadata is the one given and all entries stay |
| `TreeLaws.FoundAfterReplace` | src/libostree/ostree-mutable-tree.c:293-309 | looking up a file just written finds it with its checksum, at any path |
| `TreeLaws.FoundAfterRemove` | src/libostree/ostree-mutable-tree.c:322-341 | looking up a name just removed finds nothing |
| `TreeLaws.FoundAfterEnsure` | src/libostree/ostree-mutable-tree.c:353-378 | looking up a directory just ensured finds it, and it can be entered |
| `TreeLaws.FoundElsewhere` | src/libostree/ostree-mutable-tree.c:293-378 | every other entry of every directory is found as before |
| `MutableTrees.MutableTree.EnsureParentDirs` | src/libostree/ostree-mutable-tree.c:429-467 | all or nothing: on failure no directory was made (only unset root metadata may have been set), on success the tree is the one with all parents made, and the node returned stands at the path without its last name |
| `TreeLaws.MakeDirsMakes` | src/libostree/ostree-mutable-tree.c:443-459 | every directory of the path is there: old ones with their metadata, files and other subdirectories, new ones with the given metadata and nothing but the next |
| `TreeLaws.MakeDirsFails` | src/libostree/ostree-mutable-tree.c:443-459 | creation fails exactly if a name on the way is a file |
| `TreeLaws.EnsureParentsMakes` | src/libostree/ostree-mutable-tree.c:429-467 | after success the path without its last name is a directory, and the top has its metadata or else the given one |
| `TreeLaws.ParentsAre` | src/libostree/ostree-mutable-tree.c:443-445 | the parents of a path are all of it but its last name |
| `TreePaths.MakeDirsBlocked` | src/libostree/ostree-mutable-tree.c:443-459 | a file on the way makes the whole creation fail on the pure tree |
| `TreePaths.MakeDirsDone` | src/libostree/ostree-mutable-tree.c:443-459 | when every directory of the path exists, the tree stays as it is |
| `TreeSteps.DescendedToFile` | src/libostree/ostree-mutable-tree.c:443-459 | when the loop meets a file, it has created nothing so far |
| `TreeSteps.DescendedCreating` | src/libostree/ostree-mutable-tree.c:443-459 | once one directory has been created, all later steps happen in fresh empty ones |
| `MutableTrees.MutableTree.FillEmpty` | src/libostree/ostree-mutable-tree.c:488-533 | returns TRUE exactly when a loaded node has no entries, or a lazy one names the given checksum or one of the two names the empty tree; TRUE leaves the overlay of both trees with the given metadata and no stale cache, FALSE leaves everything as it was |
| `TreeSteps.FillsIff` | src/libostree/ostree-mutable-tree.c:500-523 | filling succeeds exactly when the directory is empty, or it is still lazy and one of the two trees is empty or both are equal |
| `TreeSteps.MergeableIff` | src/libostree/ostree-mutable-tree.c:502-513 | for stored trees, comparing the two checksums with each other and with that of the empty tree decides whether merging needs no new object |
| `MutableTrees.MutableTree.NameContents` | src/libostree/ostree-mutable-tree.c:525-532 | the node becomes lazy under the given checksums; the ancestors are cleared where something changed |
| `TreeSteps.OverlayCases` | src/libostree/ostree-mutable-tree.c:469-487 | where filling succeeds, the overlay is one of the two trees |
| `TreeSessions.FillShowsLaziness` | src/libostree/ostree-mutable-tree.c:488-533 | two nodes with the same tree, one lazy and one loaded, where filling with that tree succeeds for the first and fails for the second |
| `MutableTrees.MutableTree.Walk` | src/libostree/ostree-mutable-tree.c:546-567 | finds exactly the node at the path; NOENT exactly when the tree has no such directory; no tree changes, and loading the directories on the way does not load the one at the end |
| `TreeSessions.WalkFindsEnsured` | src/libostree/ostree-mutable-tree.c:429-467 | walking the path that was just ensured returns the very node that ensuring returned |
| `TreeSessions.EnsureThenWalk` | src/libostree/ostree-mutable-tree.c:546-567 | ensuring the parents of a path and then walking that path from 0 return the same node |
| `MutableTrees.MutableTree.New` | src/libostree/ostree-mutable-tree.c:624-628 | a loaded empty node without checksums |
| `MutableTrees.MutableTree.NewFromChecksum` | src/libostree/ostree-mutable-tree.c:643-653 | a lazy node that names its object |
| `MutableTrees.MutableTree.WriteTree` | src/libostree/ostree-repo-commit.c:4076-4138 | a commit returns the Merkle hash and metadata of the tree, reusing caches; fails exactly when metadata is missing somewhere it is needed; changes nothing but caches, which end up right |
| `TreeLaws.CommitIff` | src/libostree/ostree-repo-commit.c:4085-4090 | a commit works exactly if every directory of the tree has metadata |
| `TreeLaws.CommitResolves` | src/libostree/ostree-repo-commit.c:4076-4138 | loading what was committed gives the tree back |
| `TreeSteps.HashFromChildren` | src/libostree/ostree-repo-commit.c:4099-4122 | the object built from the cached checksums of the children hashes to the hash of the whole tree |
| `TreeSteps.SetContentsStep` | src/libostree/ostree-mutable-tree.c:263-278 | a truthful checksum set bottom-up keeps the invariant and all trees |
| `TreeSessions.Obey` | src/libostree/ostree-mutable-tree.c:293-467 | one command on a lazily loaded tree gives the answer and the tree of the pure interpreter |
| `TreeSessions.Session` | src/libostree/ostree-mutable-tree.c:293-467 | every sequence of edits, lookups, parent creations and commits, at any paths, gives the answers and the final tree of the pure interpreter, and ends in the invariant |
| `TreeSessions.SessionFromChecksum` | src/libostree/ostree-mutable-tree.c:643-653 | starting lazily from a stored checksum, every sequence answers as on the fully loaded tree |
| `LazyMarks.LazyThrough` | src/libostree/ostree-mutable-tree.c:177-233 | when only one node gets other links, paths that do not lead through it are as lazy as they were, and the others are judged at that node |
| `LazyMarks.MarkedLoad` | src/libostree/ostree-mutable-tree.c:177-233 | loading a node loads exactly its own path, seen from every node above it |
| `LazyMarks.MarkedDrop` | src/libostree/ostree-mutable-tree.c:143-153 | removing a directory takes away the marks of everything below it and no other |
| `LazyMarks.MarkedAdd` | src/libostree/ostree-mutable-tree.c:135-141 | a directory just made counts as loaded, and nothing else changes |
| `TreeSteps.WalkMarkedOn` | src/libostree/ostree-mutable-tree.c:546-567 | a walk loads exactly the directories it passes |
| `TreeSteps.DirsMarkedBy` | src/libostree/ostree-mutable-tree.c:443-459 | ensuring parents loads exactly the directories of the path that are there in the end |
| `TreeSessions.Act` | src/libostree/ostree-mutable-tree.c:293-567 | one action, filling included, is the step of a reference that holds the pure tree and the set of loaded directories |
| `TreeSessions.Compose` | src/libostree/ostree-mutable-tree.c:293-567 | in every run of all operations, filling included, all replies, the final tree and what of it is loaded are those of that reference; the invariant holds at the end, so every cached checksum is right |
| `TreeSessions.ComposeFromChecksum` | src/libostree/ostree-mutable-tree.c:643-653 | opened lazily from a stored checksum, every run of all operations has the replies of the reference that starts with nothing loaded |
| `TreeSessions.AbsNamesApart` | src/libostree/ostree-mutable-tree.c:302-303 | file and directory names are disjoint in every directory of every reachable tree |
| `KernelArgText.SplitKernelArgs` | src/libostree/ostree-kernel-args.c:169-203 | the cursor loop computes the split at spaces outside quotes |
| `KernelArgText.SplitKeeps` | src/libostree/ostree-kernel-args.c:169-203 | the tokens joined by single spaces are the string without its leading spaces and without one space at its end |
| `KernelArgText.SplitIgnoresLeading` | src/libostree/ostree-kernel-args.c:179-180 | spaces in front change nothing |
| `KernelArgText.QuotedStaysWhole` | src/libostree/ostree-kernel-args.c:182-196 | a space between double quotes does not split |
| `KernelArgText.SpaceSplits` | src/libostree/ostree-kernel-args.c:182-196 | any other space does |
| `KernelArgText.ResplitToken` | src/libostree/ostree-kernel-args.c:169-203 | splitting a non-empty token again gives that token alone |
| `KernelArgText.UnsplitSplit` | src/libostree/ostree-kernel-args.c:130-142 | a token is its key, or its key and value joined by the first equals sign |
| `KernelArgText.SplitUnsplit` | src/libostree/ostree-kernel-args.c:130-142 | an argument whose key has no equals sign comes back from its printed form |
| `KernelArgText.PrintArgs` | src/libostree/ostree-kernel-args.c:790-816 | the printing loop joins the arguments with single spaces |
| `KernelArgText.PrintThenParse` | src/libostree/ostree-kernel-args.c:790-816 | printing and parsing restores a list exactly when its tokens are unbroken, non-empty, closed except the last, and its keys have no equals sign |
| `KernelArgText.ParsePrintable` | src/libostree/ostree-kernel-args.c:700-716 | whatever the input, a parsed list is one that survives printing |
| `KernelArgText.ParsePrintParse` | src/libostree/ostree-kernel-args.c:729-738 | for every input, including open quotes and repeated spaces, parsing, printing and parsing again gives the same list |
| `KernelArgText.AppendIsParse` | src/libostree/ostree-kernel-args.c:554-585 | append and parse_append agree on a string exactly when it has no empty token |
| `KernelArgSpec.AppendThenDelete` | src/libostree/ostree-kernel-args.c:427-473 | appending an argument and deleting it restores the multiset, and the sequence if it was not there before |
| `KernelArgSpec.DeleteOneStatus` | src/libostree/ostree-kernel-args.c:427-473 | exactly when a deletion succeeds and exactly which error it gives |
| `KernelArgSpec.DeleteOneFrame` | src/libostree/ostree-kernel-args.c:427-473 | a deletion takes one argument of the key and no other; a failed one nothing |
| `KernelArgLaws.DeleteFails` | src/libostree/ostree-kernel-args.c:435-471 | a failing delete call stops at its first failing token, and each token before it has taken away one argument |
| `KernelArgLaws.DeleteUnchangedIff` | src/libostree/ostree-kernel-args.c:435-471 | a failed delete call changed nothing exactly when its first token failed |
| `KernelArgLaws.DeleteKeepsEffect` | src/libostree/ostree-kernel-args.c:435-471 | deleting `a b` from the list `a` fails and leaves the empty list |
| `KernelArgLaws.AppendThenDeleteAll` | src/libostree/ostree-kernel-args.c:554-585 | deleting a string of any number of tokens after appending it succeeds and restores the multiset, and the sequence if none of its arguments was there before |
| `KernelArgSpec.ReplaceValueStatus` | src/libostree/ostree-kernel-args.c:324-364 | exactly when a new_replace succeeds and exactly which error it gives |
| `KernelArgSpec.ReplaceValueResult` | src/libostree/ostree-kernel-args.c:324-364 | a successful new_replace changes one value in place, from the old value named to the new one asked for; a failed one nothing |
| `KernelArgLaws.ReplaceFails` | src/libostree/ostree-kernel-args.c:324-364 | a failing new_replace call stops at its first failing token and keeps what the tokens before it did |
| `KernelArgLaws.ReplaceUnchangedIff` | src/libostree/ostree-kernel-args.c:324-364 | with tokens of different keys, a failed new_replace call changed nothing exactly when every token before the one that failed asks for what is already there |
| `KernelArgLaws.ReplaceFirstFails` | src/libostree/ostree-kernel-args.c:324-364 | whatever the tokens, nothing changed if the first one failed |
| `KernelArgLaws.ReplaceKeepsEffect` | src/libostree/ostree-kernel-args.c:324-364 | replacing `a=2 b` in the list `a=1` fails and leaves `a=2` |
| `KernelArgLaws.ReplaceUndoes` | src/libostree/ostree-kernel-args.c:324-364 | replacing `a=2 a=1 b` in the list `a=1` fails and leaves it as it was, although its first token changes it |
| `KernelArgLaws.ReplaceNeedsOld` | src/libostree/ostree-kernel-args.c:310-315 | in the list `a a=1` the token `a=2` is refused as ambiguous, although the comment says it would replace the empty value |
| `KernelArgLaws.ReplacePrintableIff` | src/libostree/ostree-kernel-args.c:486-524 | for a list that survives printing, replacing keeps that exactly when the argument is one token, closed unless it ends up last, and what it is put behind is closed |
| `KernelArgLaws.ReplaceUnprintable` | src/libostree/ostree-kernel-args.c:486-524 | replacing with `a=b c` always gives a list that is not read back |
| `KernelArgLaws.AppendKeepsEmpty` | src/libostree/ostree-kernel-args.c:554-585 | append and parse_append differ on `a` and `b` with two spaces between them |
| `KernelArgSpec.ReplaceKeyResult` | src/libostree/ostree-kernel-args.c:486-524 | exactly one argument of the key is left, where the first was, and all others keep their order |
| `KernelArgSpec.LastValueIs` | src/libostree/ostree-kernel-args.c:832-843 | the value found is that of the argument behind which the key does not occur |
| `KernelArgSpec.OthersOfSingle` | src/libostree/ostree-kernel-args.c:383-401 | deleting the only argument of a key is dropping the key |
| `KernelArgs.ListOf` | src/libostree/ostree-kernel-args.c:383-401 | the list of a key is the sub-sequence of the order with that key, never empty, and shows the same arguments |
| `KernelArgs.RemoveOneKeeps` | src/libostree/ostree-kernel-args.c:466-470 | removing the same entry from the order and from its list keeps the index |
| `KernelArgs.ReplaceKeeps` | src/libostree/ostree-kernel-args.c:486-524 | replacing keeps the index, distinctness, and means ReplaceKey on the plain sequence |
| `KernelArgs.RemoveEntries` | src/libostree/ostree-kernel-args.c:122-128 | removes exactly the entries of one key; every removal finds its entry |
| `KernelArgs.KernelArgs.Append` | src/libostree/ostree-kernel-args.c:554-585 | adds one argument for each token and keeps index and order in step |
| `KernelArgs.KernelArgs.ParseAppend` | src/libostree/ostree-kernel-args.c:700-716 | adds the parsed list |
| `KernelArgs.KernelArgs.FromString` | src/libostree/ostree-kernel-args.c:729-738 | holds the parsed list |
| `KernelArgs.KernelArgs.DeleteKeyEntry` | src/libostree/ostree-kernel-args.c:383-401 | drops all arguments of a key, or fails without a change |
| `KernelArgs.KernelArgs.Delete` | src/libostree/ostree-kernel-args.c:427-473 | refines the deletion on the plain sequence, with the same error |
| `KernelArgs.KernelArgs.NewReplace` | src/libostree/ostree-kernel-args.c:324-364 | refines the replacement on the plain sequence through shared entries, with the same error |
| `KernelArgs.KernelArgs.Replace` | src/libostree/ostree-kernel-args.c:486-524 | refines ReplaceKey; the new entry is entered in the order and the index |
| `KernelArgs.KernelArgs.GetLastValue` | src/libostree/ostree-kernel-args.c:832-843 | the index gives the last match in order |
| `KernelArgs.KernelArgs.Contains` | src/libostree/ostree-kernel-args.c:878-885 | tells whether the key occurs in order |
| `KernelArgs.KernelArgs.ToString` | src/libostree/ostree-kernel-args.c:790-816 | prints the plain sequence |
| `KernelArgs.KernelArgs.Equal` | src/libostree/ostree-kernel-args.c:907-926 | equal exactly when the plain sequences are |
| `KernelArgs.EqualIndexes` | src/libostree/ostree-kernel-args.c:907-926 | objects that compare equal have the same keys and under each key the same arguments |
| `KernelArgs.AppendAndDelete` | src/libostree/ostree-kernel-args.c:554-585 | on the object, deleting a string that was just appended restores the arguments |
| `Rollsums.RollFollows` | src/libostree/bupsplit.c:51-56 | the increments are exactly those of the closed form over the last 64 bytes |
| `Rollsums.StateBounds` | src/libostree/bupsplit.c:58-65 | 1984 <= s1 <= 18304 and 124992 <= s2 <= 655392 after every input |
| `Rollsums.WindowForgets` | src/libostree/bupsplit.c:69-76 | after 64 equal bytes the window is the same whatever came before |
| `Rollsums.Resynchronises` | src/libostree/bupsplit.c:96-120 | split points and digests agree again 64 bytes behind any difference |
| `Rollsums.FewOnes` | src/libostree/bupsplit.c:107-116 | the count is at most 29 for the digest of any input |
| `Rollsums.DigestParts` | src/libostree/bupsplit.c:79-83 | the digest is s1 above and the low half of s2 below |
| `Rollsums.BoundaryIff` | src/libostree/bupsplit.c:105-107 | a split point is exactly where the digest ends in thirteen ones |
| `Rollsums.Rollsum.constructor` | src/libostree/bupsplit.c:58-65 | the initial constants are the closed form of 64 zero bytes |
| `Rollsums.Rollsum.Roll` | src/libostree/bupsplit.c:69-76 | the circular buffer and the wrapping sums stay equal to the closed form of all bytes seen |
| `Rollsums.Rollsum.GetDigest` | src/libostree/bupsplit.c:79-83 | the digest is the closed form of the last 64 bytes |
| `Rollsums.BupsplitSum` | src/libostree/bupsplit.c:85-94 | the digest of the given range |
| `Rollsums.CountBits` | src/libostree/bupsplit.c:105-116 | 13 plus the number of ones from bit 14 up; the loop ends |
| `Rollsums.CountIsRunIff` | src/libostree/bupsplit.c:105-116 | at a split point the count is the length of the run of ones at the low end of the digest exactly when bits 13 and 14 are zero |
| `Rollsums.CountSkipsBit13` | src/libostree/bupsplit.c:105-116 | the digest 0x5fff ends in 13 ones and counts as 14 |
| `Rollsums.FindOfs` | src/libostree/bupsplit.c:96-120 | the least prefix length whose digest ends in 13 ones, or 0 if no prefix has that; 13 <= bits <= 29 |
| `Diffs.RemovedIff` | src/libostree/ostree-diff.c:287-330 | a path is listed as removed exactly when it is missing in b and its parent is a directory in both |
| `Diffs.ModifiedIff` | src/libostree/ostree-diff.c:331-363 | a path is listed as modified exactly when it is in both trees with another type or another checksum |
| `DiffItems.DiffItemsRight` | src/libostree/ostree-diff.c:117-136 | every item carries the checksum of its path in the first tree and then that in the second, or none exactly if the type changed; no path is listed twice |
| `Diffs.AddedIff` | src/libostree/ostree-diff.c:366-410 | a path is listed as added exactly when it is in b, at or below something missing from a directory of a |
| `Diffs.EmptyIff` | src/libostree/ostree-diff.c:210-414 | all three lists are empty exactly when the trees agree in names, types and checksums |
| `Diffs.AccountedIff` | src/libostree/ostree-diff.c:331-363 | paths of b are those of a without removed subtrees plus added ones, exactly when no common path is a non-empty directory on one side only |
| `Diffs.HiddenNotAdded` | src/libostree/ostree-diff.c:331-363 | every path of b below a path that is no directory in a is new and not listed as added |
| `Diffs.HiddenNotRemoved` | src/libostree/ostree-diff.c:331-363 | every path of a below a path that is no directory in b is gone, and neither it nor anything above it is listed as removed |
| `Diffs.SelfDiff` | src/libostree/ostree-diff.c:260-277 | a tree differs nowhere from itself, which is what the shortcut rests on |
| `Diffs.InEverything` | src/libostree/ostree-diff.c:138-169 | the recursive listing holds every path below the directory and no other |
| `Diffs.AddDirRecurse` | src/libostree/ostree-diff.c:138-169 | appends every path below a directory |
| `Diffs.DiffDirs` | src/libostree/ostree-diff.c:210-414 | with and without the checksum shortcut, what is appended to the three lists is the full comparison |
| `Diffs.DiffOptional` | src/libostree/ostree-diff.c:243-250 | without a first tree everything in the second is added |
| `Metalinks.Request.Transition` | src/libostree/ostree-metalink.c:86-95 | skipping saves the state to return to; the assertion on equal states never fires |
| `Metalinks.Request.Start` | src/libostree/ostree-metalink.c:104-241 | the new state for every state, element and attribute, and the cases that are errors |
| `Metalinks.Request.End` | src/libostree/ostree-metalink.c:243-280 | returns to the enclosing state, or counts down inside skipped elements |
| `Metalinks.Request.Text` | src/libostree/ostree-metalink.c:282-337 | text is taken by the current state only |
| `Metalinks.Handle` | src/libostree/ostree-metalink.c:104-337 | one event keeps the parser in step with a parser that has a real stack |
| `Metalinks.Feed` | src/libostree/ostree-metalink.c:104-337 | on every well-nested event sequence (state, saved state, depth, data) is the abstraction of the true element stack, errors included |
| `Metalinks.TopTellsStack` | src/libostree/ostree-metalink.c:115-241 | outside skipped elements the state alone determines the names of all open elements |
| `Metalinks.TextTaken` | src/libostree/ostree-metalink.c:282-337 | size, hashes and URLs change only inside the exact element path of the requested file |
| `Metalinks.RunKeeps` | src/libostree/ostree-metalink.c:104-337 | in every run all collected URLs come from one file element |
| `Metalinks.ElementReturns` | src/libostree/ostree-metalink.c:243-280 | a whole element leaves the reference stack as it found it |
| `Metalinks.RunOn` | src/libostree/ostree-metalink.c:104-337 | a run can be cut anywhere and gone on with from the stack reached |
| `Metalinks.FeedFrom` | src/libostree/ostree-metalink.c:104-337 | from any state that follows a stack the parser keeps following it, errors included |
| `Metalinks.FeedElement` | src/libostree/ostree-metalink.c:104-337 | feeding a whole element leaves state and skip depth as they were, and the saved state while skipping |
| `MetalinkOwners.MarkDecides` | src/libostree/ostree-metalink.c:282-337 | the mark kept for size and hashes names the file element of the last such text, and the data hold what that text says |
| `MetalinkOwners.SameFileIff` | src/libostree/ostree-metalink.c:120-145 | once there is a URL, the size and each hash come from the same file element exactly when that element has such a text of its own |
| `MetalinkOwners.MixedIsAccepted` | src/libostree/ostree-metalink.c:120-145 | a document whose size and hash stand in one file element and whose URL stands in another of the same name is accepted |
| `MetalinkOwners.RunInsists` | src/libostree/ostree-metalink.c:104-241 | in every run: elements that count have exactly their attributes, a URL is only read once size and hash type are known, and nothing is collected before the requested file is found |
| `MetalinkOwners.RefusedIff` | src/libostree/ostree-metalink.c:104-241 | exactly which tags are refused |
| `MetalinkDocuments.DocumentMeans` | src/libostree/ostree-metalink.c:104-337 | on every well-formed document the parser computes a function of its elements and texts, and refuses where that is undefined |
| `MetalinkDocuments.MeansPieces` | src/libostree/ostree-metalink.c:282-337 | inside a file element, content does exactly what its size, hash and URL texts do, in order |
| `MetalinkDocuments.MeansCandidates` | src/libostree/ostree-metalink.c:125-150 | the file elements of the requested name are taken one after the other until there is a URL |
| `MetalinkDocuments.DocumentDecides` | src/libostree/ostree-metalink.c:120-145 | all URLs are those of the first file element of the requested name that has a usable one; size and each hash are its own last text if it has one, and otherwise what the elements before it left |
| `Metalinks.NestedRuns` | src/libostree/ostree-metalink.c:243-280 | well-nested events never close an element that is not open |
| `Metalinks.HexChecksumIff` | src/libostree/ostree-metalink.c:381-387 | a digest is valid exactly if it has the length and only lower-case hexadecimal digits |
| `Metalinks.TryOneUrl` | src/libostree/ostree-metalink.c:389-445 | accepts exactly the bytes of the given size and of the strongest given hash, and returns those bytes |
| `Metalinks.TryTargets` | src/libostree/ostree-metalink.c:447-529 | succeeds exactly when the document is usable and some URL matches, with the first such |
| `AsyncProgress.Progress.Set` | src/libostree/ostree-async-progress.c:312-352 | stores the pairs unless dead; attaches a source exactly when something changed and none waits |
| `AsyncProgress.Progress.SetVariant` | src/libostree/ostree-async-progress.c:369-395 | the shorter code for one key does what setting that one pair does |
| `AsyncProgress.AssignSets` | src/libostree/ostree-async-progress.c:327-342 | a key that is set holds the value of its last pair |
| `AsyncProgress.AssignKeeps` | src/libostree/ostree-async-progress.c:327-342 | a key that is not set stays as it was |
| `AsyncProgress.NoChange` | src/libostree/ostree-async-progress.c:336-338 | setting what is there already is no change |
| `AsyncProgress.QuietSet` | src/libostree/ostree-async-progress.c:312-352 | a set that changes nothing, or comes after finish, leaves all fields as they are |
| `AsyncProgress.Progress.Finish` | src/libostree/ostree-async-progress.c:478-498 | destroys the waiting source once and marks the object dead |
| `AsyncProgress.NextKeeps` | src/libostree/ostree-async-progress.c:216-238 | every step of every thread keeps the invariant |
| `AsyncProgress.NoLostNotification` | src/libostree/ostree-async-progress.c:216-238 | in every interleaving, a change since the last emission, even one that was undone, means that a source is attached or an emission is committed; values not yet shown mean such a change; at most one source is attached |
| `AsyncProgress.ChangeIsPending` | src/libostree/ostree-async-progress.c:312-352 | the same said of runs: after a set that changed something, and no emission since, an emission is on its way |
| `AsyncProgress.Settles` | src/libostree/ostree-async-progress.c:216-228 | from every reachable state at most four steps, of dispatch and of a finish already under way, show the current values |
| `AsyncProgress.FinishIsFinal` | src/libostree/ostree-async-progress.c:478-498 | after finish the values are frozen and no source is attached again |
| `Xattrs.CompareTransitive` | src/libostree/ostree-core.c:311-322 | the byte-wise order of names is transitive |
| `Xattrs.PrefixFirst` | src/libostree/ostree-core.c:311-322 | a name comes before every longer name that begins with it |
| `Xattrs.FirstDifference` | src/libostree/ostree-core.c:311-322 | otherwise the first byte that differs decides, the smaller coming first |
| `Xattrs.NameIs` | src/libostree/ostree-core.c:318-319 | a name is the raw bytes before the first NUL, and empty if they do not end in one |
| `Xattrs.CanonicalizeXattrs` | src/libostree/ostree-core.c:325-349 | a permutation sorted by name; NULL gives the empty list |
| `Xattrs.CanonicalUnique` | src/libostree/ostree-core.c:325-349 | all permutations of unambiguous attributes have the same canonical form |
| `Xattrs.OneFormIff` | src/libostree/ostree-core.c:325-349 | sorting by name determines the result exactly when attributes of one name are equal |
| `Xattrs.ValidateXattrs` | src/libostree/ostree-core.c:2332-2356 | comparing neighbours decides whether all names are non-empty and strictly ascending |
| `Xattrs.CanonicalValidates` | src/libostree/ostree-core.c:2332-2356 | a canonical form passes exactly when the names are non-empty and distinct |
| `Xattrs.ValidatedIsCanonical` | src/libostree/ostree-core.c:2332-2356 | a list that passes is its own and only canonical form, so canonicalising is idempotent |
| `Xattrs.FileHeaderNew` | src/libostree/ostree-core.c:356-378 | the header holds the stat fields and the canonical attributes |
| `Xattrs.HeadersAgree` | src/libostree/ostree-core.c:356-378 | headers are equal exactly when the fields and the attributes as a multiset are |
| `ChecksumText.InplaceToBytes` | src/libostree/ostree-core.c:1412-1431 | hexadecimal to bytes, nothing else in the buffer changes |
| `ChecksumText.InplaceFromBytes` | src/libostree/ostree-core.c:1485-1489 | bytes to hexadecimal with a NUL behind |
| `ChecksumText.UnhexHex` | src/libotutil/ot-checksum-utils.c:34-47 | bytes come back from their hexadecimal form |
| `ChecksumText.HexValues` | src/libostree/ostree-core.c:1423-1424 | the value of every hexadecimal digit in either case |
| `ChecksumText.AlphabetValues` | src/libostree/ostree-core.c:1381-1401 | the value of every base64 digit, as in section 4 of RFC 4648 |
| `ChecksumText.QuadIsNumber` | src/libostree/ostree-core.c:1500-1530 | three bytes and their four digits are the same number, high places first |
| `ChecksumText.Examples` | src/libostree/ostree-core.c:1500-1530 | three examples of section 10 of RFC 4648 |
| `ChecksumText.B64Chars` | src/libostree/ostree-core.c:1500-1530 | the path form is base64 with an underscore for each slash and without its one padding sign |
| `ChecksumText.HexUnhex` | src/libostree/ostree-core.c:1412-1431 | text comes back exactly when it is in lower case |
| `ChecksumText.ValidateChecksumString` | src/libostree/ostree-core.c:2051-2080 | accepts exactly 64 lower-case digits |
| `ChecksumText.B64InplaceFromBytes` | src/libostree/ostree-core.c:1500-1530 | the modified base64 form; the padding sign is met at place 43 only |
| `ChecksumText.B64InplaceToBytes` | src/libostree/ostree-core.c:1381-1401 | decodes the modified form |
| `ChecksumText.Unb64B64` | src/libostree/ostree-core.c:1500-1530 | decoding gives back all 32 bytes of every checksum |
| `ChecksumText.B64Unb64` | src/libostree/ostree-core.c:1381-1401 | encoding gives back a text exactly when its last digit has no stray bits |
| `DeltaPaths.StaticDeltaPathBase` | src/libostree/ostree-core.c:1807-1843 | the path of a delta; the run-time round-trip assertion never fails |
| `DeltaPaths.BaseIs` | src/libostree/ostree-core.c:1819-1840 | the checksum a delta starts from comes first, with the slash behind its second digit |
| `DeltaPaths.PathIs` | src/libostree/ostree-core.c:1845-1876 | where superblock, detached metadata and parts of a delta are |
| `DeltaPaths.DecimalIs` | src/libostree/ostree-core.c:1872-1875 | a part number is written so that it reads as itself |
| `DeltaPaths.ParseReads` | src/libostree/ostree-core.c:1888-1917 | a name with a dash is read as from and to, one without as to |
| `DeltaPaths.PathInjective` | src/libostree/ostree-core.c:1845-1876 | different deltas, and different files of a delta, never share a path |
| `DeltaPaths.ListedBack` | src/libostree/ostree-repo-static-delta-core.c:130-151 | listing the directories of a delta rebuilds its name |
| `DeltaPaths.ParseIff` | src/libostree/ostree-core.c:1888-1917 | parsing accepts exactly the names of deltas between valid checksums and gives their parts |
| `Bootconfigs.Parser.ParseAt` | src/libostree/ostree-bootconfig-parser.c:149-204 | the line loop computes the table and the overlay initrds, on top of what was there |
| `Bootconfigs.ParseLineIff` | src/libostree/ostree-bootconfig-parser.c:166-191 | a line is a field exactly if it is a key that starts with a letter, a blank or tab, and a value |
| `Bootconfigs.LinesJoin` | src/libostree/ostree-bootconfig-parser.c:161-163 | splitting into lines loses nothing |
| `Bootconfigs.LastFieldCounts` | src/libostree/ostree-bootconfig-parser.c:182-185 | of several fields with a key the last one counts |
| `Bootconfigs.FirstInitrdCounts` | src/libostree/ostree-bootconfig-parser.c:172-181 | the first initrd is the primary one unless there was one already, and all others are overlays in order |
| `Bootconfigs.Parser.SetOverlayInitrds` | src/libostree/ostree-bootconfig-parser.c:255-261 | keeps what the writer asserts about the primary initrd |
| `Bootconfigs.Parser.WriteAt` | src/libostree/ostree-bootconfig-parser.c:287-332 | known fields in fixed order, overlays, then the rest; the assertion never fires |
| `Bootconfigs.WrittenInOrder` | src/libostree/ostree-bootconfig-parser.c:289-309 | an entry with all six keys is written in the documented order |
| `Bootconfigs.RenderedLines` | src/libostree/ostree-bootconfig-parser.c:278-285 | one field to a line, with a blank between key and value |
| `Bootconfigs.Parser.GetExtraKeys` | src/libostree/ostree-bootconfig-parser.c:374-394 | exports exactly what the last loop of the writer writes; NULL exactly if that is nothing |
| `Bootconfigs.IsStandardKey` | src/libostree/ostree-bootconfig-parser.c:350-359 | membership in the standard keys |
| `Bootconfigs.FieldOrderIsStandard` | src/libostree/ostree-bootconfig-parser.c:289-294 | the fields written first are the standard keys |
| `Bootconfigs.WriteThenParse` | src/libostree/ostree-bootconfig-parser.c:287-332 | parsing the written text recovers table and ordered overlays, for every hash order, exactly when keys start with a letter and have no separator and nothing has a newline |
| `Bootconfigs.ParsedWellFormed` | src/libostree/ostree-bootconfig-parser.c:149-204 | every parsed text gives a configuration that survives writing |
| `Bootconfigs.ExtraKeysSurvive` | src/libostree/ostree-sysroot.c:1230-1245 | setting the exported keys on a rebuilt entry restores all extra keys and keeps the rebuilt ones |
| `Bootconfigs.SaveAndLoad` | src/libostree/ostree-bootconfig-parser.c:149-204 | one parser writes, a new one parses: both hold the same entry |
| `Blooms.SetBits` | src/libostree/ostree-bloom.c:240-246 | or-ing one mask adds exactly one bit |
| `Blooms.Masks` | src/libostree/ostree-bloom.c:225-246 | bit i of a byte is the one of weight two to the power of i |
| `Blooms.PositionsSet` | src/libostree/ostree-bloom.c:261-280 | all positions of an element are set exactly if each of its hashes, modulo the number of bits, meets a one |
| `Blooms.Bloom.New` | src/libostree/ostree-bloom.c:112-132 | no bit is set |
| `Blooms.Bloom.NewFromBytes` | src/libostree/ostree-bloom.c:152-173 | holds the given bytes |
| `Blooms.Bloom.GetBit` | src/libostree/ostree-bloom.c:225-237 | reads either form of the bytes within range |
| `Blooms.Bloom.SetBit` | src/libostree/ostree-bloom.c:240-246 | adds the bit and no other |
| `Blooms.Bloom.AddElement` | src/libostree/ostree-bloom.c:324-338 | the set bits stay the union of the positions of all elements added; refused once sealed |
| `Blooms.Bloom.MaybeContains` | src/libostree/ostree-bloom.c:261-280 | true exactly when all positions are set, so for every element added |
| `Blooms.Bloom.Seal` | src/libostree/ostree-bloom.c:297-311 | hands out the bytes unchanged, also when called again |
| `Blooms.AllPositionsOnly` | src/libostree/ostree-bloom.c:324-338 | every set bit comes from some element that was added |
| `Blooms.FillSealReload` | src/libostree/ostree-bloom.c:297-311 | before sealing, after it and after reloading the answer is the same, and true for every element added |

## Left out

- MutableTrees.MutableTree.ReplaceFile: the check that a name is valid UTF-8 is not modelled; a name is valid when it is not `.` or `..` and has no slash.
- MutableTrees.MutableTree.Remove: as for ReplaceFile, names are text and so always valid UTF-8.
- MutableTrees.MutableTree.EnsureDir: as for ReplaceFile, names are text and so always valid UTF-8.
- MutableTrees.MutableTree.SetMetadata: a NULL metadata checksum as the argument is not modelled; on a lazy node it would violate the assertion at ostree-mutable-tree.c:186.
- MutableTrees.MutableTree.SetContents: a NULL or untruthful checksum, or one set before the children have theirs, is ruled out by a precondition, which is the duty the code puts on its callers.
- MutableTrees.MutableTree.FillEmpty: the given object is taken to be in the store; a repository without it makes later loads fail, which `MakeWhole` models.
- MutableTrees.MutableTree.EnsureParentDirs: the load that the code requests on a directory it has just created is a no-op and is not written out.
- TreeSessions.Session: filling from a stored tree is not among its commands, because the reply depends on whether a node was loaded; `TreeSessions.Compose` covers runs with it. In runs all loads are taken to succeed; the single methods model the failing load.
- Mutable tree: the raw tables handed out by get_files and get_subdirs, the cached error of the getters that cannot fail, reference counting, and the writing of objects to disk. Checksums are numbers and the hash is any injective function.
- KernelArgs.KernelArgs.Append: the calls on arrays of strings, on /proc/cmdline, with a prefix filter, append_if_missing and delete_if_present only repeat the modelled ones.
- KernelArgLaws.ReplaceUnchangedIff: exact for tokens of different keys only, because tokens of one key can undo each other (`KernelArgLaws.ReplaceUndoes`); `KernelArgLaws.ReplaceFirstFails` holds for all.
- Rollsums.Rollsum.GetDigest: shift, mask and or are written as multiplication, remainder and addition, which agree because the halves do not overlap.
- Diffs.DiffDirs: read errors, uid and gid overrides and how a file's checksum is found are not modelled; a file is its checksum and type. The contents checksum is taken to determine the children.
- Metalinks.Feed: how GLib turns bytes into events is not modelled; parsing of numbers and URLs is an arbitrary function.
- Metalinks.TryOneUrl: fetching and hashing are arbitrary functions.
- AsyncProgress.NextKeeps: copy_state, which by design schedules nothing, is not a step; values are strings.
- Xattrs.FileHeaderNew: byte order and the serialised layout are not modelled; sorting is the library's, so the theorems hold for every sorted permutation.
- ChecksumText.B64InplaceToBytes: text outside the alphabet, which the library's decoder skips, and text shorter than 43 characters are ruled out by a precondition.
- DeltaPaths.ListedBack: walking the directories is not modelled, only what is made of two names found.
- Bootconfigs.Parser.ParseAt: the boot counters in the file name are not modelled.
- Bootconfigs.Parser.WriteAt: the order of the hash table is a parameter; the file system is left out.
- Blooms.Bloom.New: SipHash is an arbitrary hash function; reference counts are left out.
- Fetchers, GPG, archives, boot loader back ends, the system generator, bindings, deltas' contents, pulls and prunes are not part of this model: they rest on the network, on other libraries or on the file system.
