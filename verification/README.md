# A model of image extraction, serving and storage

`oci_runtime` unpacks an OCI image into a root filesystem, or serves it lazily,
without ever building the same image two different ways by accident. This
project models the parts of it that make that hard, and proves what they keep.

- **Deciding an image without a disk.** `Plan::resolve` replays every layer's
  table of entries over a map of paths; `RootfsExtractor::unpack` walks the
  layers and edits a filesystem. `Replay` and `Walk` specify the two machines,
  `Resolver` and `Extractor` are the loops that compute them, `Simulation` and
  `Mirror` prove when they agree, `Plain` tells it from an image's tables alone,
  and `Partings` gives five images where they do not. `History` is what a replay
  says of the past, and `Shadow` is about the bodies the walk leaves out.
  `Stopping` says of a disk and an entry where the walk gets by and where it
  stops, `Refusals` reads the replay's verdict against that, and `Layering` says
  from the entries alone what stands in the end.
- **Placing it straight from the plan.** `Planner` lists what is to be placed,
  `Placement` places it, `TwoRoutes` compares what then stands with what the walk
  leaves. `Owners` and `Links` are the invariants of the replay this rests on, and
  `Placeability` says when placing can be left to the plan.
- **Serving it.** `Inodes` is the inode table, `Namespaces` what it means,
  `Changes` and `Served` the requests that change it, `Answers` what each is
  granted for and brings about, `Serve` and `Build` the tree put together from a
  plan, and `Mounting` the whole way there from an image's tables. `Contents` is
  where a file's bytes are while fetches, copy-ups and writes race, `Effects` what
  each of those does when it gets its turn, and `Fetch` is one fetch.
- **Working through a layer.** `Spans` cuts layers into units, `Units` runs one,
  `Pool` runs them all, `Reorder` puts a layer's spans back in order and `Ahead` is
  how many wait for that (`Totals` is how far each has to go).
- **Streams and tables.** `Frames` and `Checkpoints` are the zstd index
  (sections 3.1.1 and 3.1.2 of RFC 8878), `Indexed` what it is worth to a layer's
  units, `Stream` reads a blob frame by frame, `Codec` and `Rootfs` are the
  recorded table, `Reading` what can be relied on in one that is read, `Stitch`
  what is kept of an image's tables and `Recording` how it comes from the plan.
- **Between launches.** `Store` is the content store, and `Objects` what publishing,
  crashing, dying and reading do to what is in it.

`Paths`, `Keys`, `Layers` and `Sorting` are what the others share: spellings and
their byte order, the order of the plan's map, entries and markers (the OCI Image
Format Specification, layer.md, sections "Whiteouts" and "Opaque Whiteout"), and
lists put in order.

Loops and objects that change in place are methods and classes here, each proved
against a function or predicate of the values it works on; what holds over whole
images, runs or schedules is proved of those as lemmas. Entry paths are lists of
names (`Paths.Spell` gives their bytes), and an inode is known by the entry that
made it, so two names share one exactly when they agree on it.

## How to read the main results

A layer's entries mean the same to the plan and to the walk only under
conditions. Before each entry these are asked of the replay alone, as a `Guard`:

- `NothingStraddles`: no path of the layer sorts between a directory the layer
  did not name and what the layer put in it (`d`, `d.c`, `d/a`);
- `NothingStale`: nothing under the marker's directory is something the layer
  wrote and lost again, standing there now without the layer naming it;
- `MarkerIsPlain`: the name a marker hides is an ordinary one, and not one the
  layer wrote and lost;
- `LinkIsPlain`: a link standing where a directory entry goes leads to a
  directory just when it is a symlink whose end point, looked up once, is one.

`Mirror.ReplayMirrorsTheWalk` says the two agree after every entry if and only if
these hold before every entry. They are asked of the tree, of the disk the tree
stands for (`History.Standing`) and of what the layer's entries have placed, never
of the walk, so the equivalence says where the walk will part from the replay
before it is taken. `Plain.PlainImagesMirror` needs no replay beyond its verdict:
`PlainImage` reads an image's tables and asks that

- no entry takes away or hides anything above a path its own layer placed before
  (`KeepsWhatItPlaces`);
- when an opaque marker comes, what its layer has placed in a directory it did not
  name sorts together (`KeepsTogether`); names without bytes below the slash, or
  naming each directory first, are each enough;
- markers hide ordinary names (`MarkersAreOrdinary`);
- a link a directory entry can meet has a relative target under the rootfs and no
  link on its way (`LinksLeadStraight`).

`Plain.OrdinarilyIsPlain` is about one such image, and `Partings` holds some for
which one or another fails. Nothing of this is needed for placing, serving or
stitching an image from its plan, which hold for every plan with work; nor for the
plan's hard links, which name what stood at their targets when their own turns came
(`TwoRoutes.LinkedAtItsOwnTime`).

What the two machines do is not only told of one by the other. `Stopping` and
`Layering` are about disks, entries and names, without either: the walk comes to
the end exactly when each entry could be got by on the disk it met, an image told
plain is refused exactly when the walk does not come to the end or an entry is one
the replay balks at (`Refusals.RefusedForAReason`), and what stands in the end is
what had the last word at its path (`Layering.LastWordsAreWalked`). Likewise the
inode table's requests are told by the names and counts before and after
(`Answers`), and an accepted table by what its lists hold (`Reading`).

## Where the code and what is said of it part

- `plan.rs:415-420` says the replay mirrors the walk entry for entry. It does
  exactly under the guards above; `Partings` holds five images, each resolved with
  nothing in the way, that come out differently.
- `plan.rs:728-743` says the replay refuses what the walk stops on. It refuses a
  little more, such as an opaque marker directly under a path where a file stands,
  an entry of an unsupported kind anywhere under one, or a hard link to itself
  where a directory stands: the walk gets by each of these, and extracts an image
  there is no plan for. `Refusals.IsBalkedAt` has them all, and
  `Refusals.RefusedYetWalked` is an image.
- `plan.rs:231-234` keys what to skip by layer digest, so an image listing one
  layer twice skips, under the digest both share, a file that survives from the
  second: it is on the disk of the full walk and not of the skipping one
  (`Shadow.SharedDigestLosesTheFile`). Skipping is harmless exactly when the last
  layer to have anything to skip under a digest dooms nothing that survives from
  another layer with it (`Shadow.SkippingIsHarmless`).
- `spans.rs:187-217` never ends for a layer one of whose files begins where the
  stream ends (`Spans.CuttingEnds`), such as an empty file that ends an archive
  without end-of-archive blocks.
- `pipeline.rs:214-216` says the channel's bound and a span for each worker limit
  how far inflating runs ahead of writing. A span that comes before its turn leaves
  the channel and waits in a map, which nothing bounds: with two workers or more,
  one slow span lets all the others pile up behind it (`Ahead.CappedJustWhen`).
- `fs.rs:1267-1323` answers a rename of a name onto itself with an error, after
  taking the name away (`Changes.RefusalChangesNothing`). That is a property of the
  handler: the kernel answers such a rename itself and never asks for one.
- `store.rs:370-371` says a collection removes what nobody has read for the
  retention period. A lookup opens an object, reads its age and touches it last,
  and a collection reads an age before it removes, so one can remove what a lookup
  is handing out. What is hit is kept for thirteen days if and only if, at the
  lookup's last step, the name still leads to its file and no collection has it in
  hand (`Store.HitsSurviveFromTheEnd`). Told when the object is opened: no
  collection has it in hand, and it will not have gone unread past the retention
  before the lookup is done (`Store.HitsSurviveFromTheOpen`). Runs fail either way
  (`Store.InHandAtTheOpen`, `Store.LookedAtBetween`). The launch that hit it keeps
  its file.

`dafny verify dfyconfig.toml --verification-time-limit 0` checks the project.

## Model

| member | source | states |
|---|---|---|
| `Mirror.ReplayMirrorsTheWalk` | source/src/extract/plan.rs:415-541 | The replay mirrors the walk entry for entry: for every well-formed image whose replay met nothing in the way, the walk places every entry without stopping and after each one its disk holds exactly the tree's paths, kinds and owners, if and only if before each entry the replay alone passes the guard (no straddling path, nothing stale, plain markers and links); the walk is not asked |
| `Plain.PlainImagesMirror` | source/src/extract/plan.rs:415-541 | On every host the replay mirrors the walk entry for entry, for every image whose replay met nothing in the way and whose tables show that no layer clears away anything above what it placed, that what it places in a directory it does not name sorts together, that it hides only ordinary names, and that its directory entries meet only links with a straight relative target |
| `Simulation.EntryStep` | source/src/extract/plan.rs:435-538 | One entry of any kind (marker, file, directory, link, rootfs) keeps the tree and the disk in agreement exactly when the guard holds before it; when it does not, the two disagree afterwards |
| `Simulation.ClearingAgrees` | source/src/extract/plan.rs:802-828 | Where nothing straddles and nothing is stale, an opaque marker drops the same paths from the tree as the walk drops from the disk |
| `Simulation.ClearingParts` | source/src/extract/entry.rs:278-313 | Where something straddles or is stale, the opaque marker leaves a path on one side and not on the other |
| `Simulation.ScanMissesByStraddling` | source/src/extract/plan.rs:809-823 | The deepest-first scan keeps a directory it does not name just when that holds something of the layer's, except where a path of the layer comes between them in byte order |
| `Simulation.HardLinkStep` | source/src/extract/plan.rs:517-535 | A hard link the replay finds nothing wrong with is one the walk makes, self links and replaced paths included |
| `Simulation.DirectoryStep` | source/src/extract/file.rs:234-249 | A directory entry keeps or replaces a standing link alike on both sides exactly when the link leads to a directory just when the plan finds it does |
| `Plain.HighBytesKeepTogether` | source/src/extract/plan.rs:425-428 | A layer none of whose names holds a byte below the slash keeps together what it places in a directory, as the contiguity the scan rests on needs |
| `Plain.NamedDirectoriesKeepTogether` | source/src/extract/plan.rs:810-822 | So does a layer that names each directory before it puts something in it |
| `Plain.LayersNameWhatTheyWrite` | source/src/extract/entry.rs:133-136 | At every point of the replay, a layer that clears away nothing above what it placed still names all of it and nothing else |
| `Plain.StandingLinkIsPlain` | source/src/extract/plan.rs:546-577 | Where every entry that can have left a link at a path leads straight, the link standing there is followed by the kernel to the very path the plan looks up |
| `Partings.StraddlingParts` | source/src/extract/plan.rs:810-822 | `d/a`, `d.c` and an opaque marker: the replay drops `d`, the walk keeps it, and nothing stands in the way of either |
| `Partings.StaleParts` | source/src/extract/entry.rs:103-113 | A path a layer wrote, took away with its directory and made again: the walk skips the marker that names it, the replay applies it |
| `Partings.ChainParts` | source/src/extract/plan.rs:553-576 | A link whose target passes through another link: the walk keeps it, the plan replaces it |
| `Partings.LinkedLinkParts` | source/src/extract/plan.rs:482-509 | A name made a hard link to a symlink, then a directory entry for it: the walk keeps the link, the plan replaces it |
| `Partings.AbsoluteParts` | source/src/extract/plan.rs:553-560 | An absolute target is looked up in the rootfs by the plan and on the host by the walk |
| `Extractor.RootfsExtractor.SiftChildren` | source/src/extract/entry.rs:278-300 | The listing loop drops exactly the children not to be kept, and defers exactly the directories that are |
| `Extractor.RootfsExtractor.ClearLowerLayers` | source/src/extract/entry.rs:278-305 | The recursive clearing leaves what the layer wrote and the directories holding it, and ends |
| `Extractor.RootfsExtractor.ApplyOpaqueWhiteout` | source/src/extract/entry.rs:250-269 | The opaque marker's new disk and outcome, in every case of what stands at and above its directory |
| `Simulation.NamedEntryStep` | source/src/extract/entry.rs:103-113 | A marker naming one path takes the same away from the tree and the disk, leaving what its own layer wrote, exactly when the name it hides is ordinary and not one the layer wrote and lost |
| `Extractor.RootfsExtractor.PrepareParents` | source/src/fsutil.rs:249-300 | The directories missing on the way to a path, made shallowest first, and nothing else |
| `Extractor.RootfsExtractor.Place` | source/src/extract/entry.rs:133-244 | Placing one entry of each kind, with the write recorded first, the skipped body's clearing, the self link and the errors |
| `Extractor.RootfsExtractor.Unpack` | source/src/extract/entry.rs:20-247 | The extractor, walking every layer in place, succeeds if and only if every entry of every layer could be got by on the disk it met; then no entry was a marker naming nothing or a symlink to nothing, and it stops with an error if and only if it came to an entry that is one, that had a file above it, or that was a hard link to nothing or to a directory |
| `Stopping.GettingBy` | source/src/extract/entry.rs:95-244 | The walk gets by an entry exactly when it is no marker naming nothing, its way (and a hard link's target's) is open, a symlink names something and a hard link finds a non-directory that is still there once its own path is cleared |
| `Stopping.Stopping` | source/src/extract/entry.rs:115-244 | It stops on one exactly when that is a marker naming nothing, a symlink naming nothing, a hard link whose target is missing, is a directory or goes with what the link replaces, or something below a path where a file stands |
| `Stopping.NamingNothingStopsTheWalk` | source/src/extract/entry.rs:115-120 | An image one of whose entries is a marker naming nothing or a symlink naming nothing is walked to its end on no host, whatever is skipped |
| `Extractor.EntryKeepsShape` | source/src/extract/entry.rs:136-244 | Whatever holds a name on the walk's disk stays a directory |
| `Resolver.Range` | source/src/extract/plan.rs:795-804 | Seeking to the bound and reading on while paths start with it finds all that is under a directory and nothing else |
| `Resolver.HandDecides` | source/src/extract/plan.rs:810-822 | The one path in hand decides what the scan keeps |
| `Resolver.RemoveUnder` | source/src/extract/plan.rs:782-828 | The in-place removal, whole or of the lower layers, leaves exactly what the specification leaves |
| `Resolver.ReplayOne` | source/src/extract/plan.rs:436-535 | One step of the resolving loop is one entry of the specified replay, tree and verdict, which `Refusals` reads against what the walk gets by |
| `Resolver.Replay` | source/src/extract/plan.rs:429-541 | The resolving loop over all layers ends in the specified tree and the worst thing met in the way |
| `Refusals.BlocksWhereTheWalkSticks` | source/src/extract/plan.rs:433-535 | Where tree and disk agree, the replay has nothing against an entry if and only if the walk gets by it and it is none of the few told from the disk that the replay balks at, markers hiding a name no path can hold apart |
| `Refusals.ThroughIsThrough` | source/src/extract/plan.rs:590-609 | What stands in the way is a symlink the plan may leave to the walk exactly when one on the disk leads to a directory, wherever the links on the way are plain |
| `Refusals.BlockedIsTheWorst` | source/src/extract/plan.rs:747-757 | The verdict over several entries is the worst of what each would meet alone, and the tree does not depend on it |
| `Refusals.RefusedForAReason` | source/src/extract/plan.rs:726-745 | An image told plain from its tables is resolved with nothing in the way if and only if the walk comes to its end and none of its entries is one the replay balks at when its turn comes, on every host |
| `Refusals.RefusedYetWalked` | source/src/extract/plan.rs:728-743 | A file with an opaque marker under it in a later layer: the replay says the walk stops there, and the walk comes to the end |
| `Layering.LastWordsStand` | source/src/extract/plan.rs:415-541 | At every point of a replay with nothing in the way, for layers that clear away nothing above what they placed and at every path no directory entry shares with a symlink: a file, symlink or hard link stands there if and only if its entry placed it and no later one replaced it or what holds it, or hid it by a marker its layer had not placed the path before. Told from the entries alone |
| `Layering.LastWordsAreWalked` | source/src/extract/plan.rs:415-541 | What an image told plain leaves of files, symlinks and hard links, on every host and by either route: at each path what had the last word there, and nothing else |
| `Owners.ReplayKeepsOwners` | source/src/extract/plan.rs:403-413 | Every node stands at a canonical path and is owned by an entry of its kind at that path, whatever was in the way |
| `Links.ReplayKeepsLinks` | source/src/extract/plan.rs:616-635 | Every hard link that stands still names what it was made against, unless something has taken that path since |
| `Keys.Cmp` | source/src/extract/plan.rs:63-84 | Comparing eight-byte words, then the tail, then the lengths is exactly lexicographic byte order |
| `Keys.WordsCompareAsBytes` | source/src/extract/plan.rs:70-76 | Big-endian words of equal width compare as their bytes do |
| `Paths.UnderIsOneRange` | source/src/extract/plan.rs:794-796 | What sorts between two paths under a directory is under it as well |
| `Paths.UnderIsAPrefix` | source/src/extract/plan.rs:772-773 | What starts with a directory's spelling and a slash is under it, and nothing else is |
| `Paths.UnderComesAfter` | source/src/extract/plan.rs:687-689 | A directory sorts ahead of its contents |
| `Paths.CanonicalEntryPath` | source/src/fsutil.rs:48-60 | A path is refused exactly when one of its parts, cut at the slashes, is `..`, or when every part is empty or `.`; what is given for any other spells the parts that are neither, in order, and rebuilding it again changes nothing |
| `Paths.AcceptedPaths` | source/src/fsutil.rs:30-38 | The names read off a path are its parts that are neither empty nor `.`, in the order they come, and there are some exactly when the path names something and no part of it climbs |
| `Paths.CanonicalFormIsFixed` | source/src/fsutil.rs:30-60 | Spelling a canonical path and reading it back gives it back |
| `Layers.Canonicalise` | source/src/extract/plan.rs:311-340 | Every entry rewritten in the one form, its names those of its path in order and its target's likewise, or the image refused exactly when some layer names what the walk refuses: a path or target that climbs or names nothing, or the rootfs as anything but a directory |
| `Layers.AcceptedEntries` | source/src/extract/plan.rs:311-340 | An entry has a canonical form exactly when neither its path nor a hard link's target climbs or names nothing, the rootfs itself being named only as a directory, and the form keeps its kind, place and size and reads its names in order |
| `Layers.MarkersReadAlike` | source/src/extract/whiteout.rs:24-49 | Reading a marker off the bytes of a path, cut at its last slash, gives the spelling of what its names say it hides |
| `Shadow.FillShadowTable` | source/src/extract/plan.rs:202-235 | The loop that fills the table of what to skip, by digest, with later digests written over earlier |
| `Shadow.TheLastWordIsKept` | source/src/extract/plan.rs:202-235 | What is skipped under a digest is what the last layer with anything to skip under it dooms, and nothing of any other |
| `Shadow.SkippingThins` | source/src/extract/entry.rs:150-155 | At every point the full walk reaches, the skipping walk is there too, with the same disk less the bodies skipped |
| `Shadow.SkippingIsHarmless` | source/src/extract/plan.rs:203-235 | The skipping walk places the same image as the full walk if and only if no surviving file is doomed by the last layer to have anything to skip under the digest of the layer it survives from |
| `Shadow.DistinctDigestsSkipSafely` | source/src/extract/plan.rs:231-234 | Which holds for every image whose layers have distinct digests |
| `Shadow.DistinctDigestsSkipAll` | source/src/extract/plan.rs:203-235 | And then a layer's file is skipped if and only if its path no longer leads to that layer in the end and no hard link of the image is to find it |
| `Shadow.PlainImagesSkipSafely` | source/src/extract/plan.rs:203-235 | So for every such image told plain from its tables the skipping walk ends with the disk of the full one |
| `Shadow.DoomedSurvivorIsLost` | source/src/extract/plan.rs:231-234 | A surviving file doomed under its own digest is on the full walk's disk and not on the skipping walk's |
| `Shadow.SharedDigestLosesTheFile` | source/src/extract/plan.rs:231-234 | For any two files in a layer the image lists twice, both walks end, and the second copy's file is on the disk of the full one only |
| `Planner.Directories` | source/src/extract/plan.rs:671-695 | The listing loop gives each wanted directory once, parents first, and nothing behind a link |
| `Planner.WorkOf` | source/src/extract/plan.rs:357-400 | Work is given exactly when every path can be placed: files in stream order, links in the order they were named, each once |
| `Placeability.PlaceableIsSettled` | source/src/extract/plan.rs:343-400 | An image resolved with nothing in the way can be placed straight from its plan if and only if no sparse file is left in it and every hard link still names what it was made against |
| `Planner.Resolve` | source/src/extract/plan.rs:179-265 | From raw tables there is a plan if and only if every path is accepted, nothing stood in the way and every path can be placed; it lists everything the replay ends with once, directories parents first, files in stream order, links as named. `Layers.AcceptedEntries`, `Refusals` and `Placeability` say when each of the three holds |
| `Planner.Extract` | source/src/extract/plan.rs:179-265 | The whole fast route from raw tables: something is placed if and only if every path is accepted, nothing stood in the way and every path can be placed, and then what stands is the plan |
| `Placement.ParentIsPlanned` | source/src/extract/plan.rs:671-695 | Everything planned has a planned directory to go in |
| `Placement.TargetIsPlanned` | source/src/extract/plan.rs:373-391 | What a planned hard link names is planned, is no directory and came from an earlier entry |
| `Placement.PlannedRootfs.CreateDirectories` | source/src/extract/mod.rs:157-167 | No directory of the plan meets a missing parent |
| `Placement.PlannedRootfs.CreateAll` | source/src/extract/file.rs:186-205 | Bodies or symlinks, in any order, meet no taken path and no missing parent |
| `Placement.PlannedRootfs.LinkAll` | source/src/extract/file.rs:212-218 | Hard links in named order meet no missing target and share its inode |
| `Placement.PlannedRootfs.Extract` | source/src/extract/spans.rs:88-133 | Directories, symlinks, bodies in any order and hard links: nothing fails on the way, and what stands is exactly the plan |
| `Placement.ReplayedIsSound` | source/src/extract/plan.rs:255-257 | Every image that resolves with nothing in the way and can be placed has such a plan |
| `TwoRoutes.LinkedAtItsOwnTime` | source/src/extract/plan.rs:373-391 | What a hard link of any placeable image names at the end is what stood there when its own turn came, placed by the same entry and of the same kind |
| `TwoRoutes.PlacedAsLinked` | source/src/extract/mod.rs:170-198 | For every placeable image, what the plan places is what stands once each link is made at its own time, with the directories nothing names; two names share an inode in the one just when they do in the other |
| `TwoRoutes.PlacingIsWalking` | source/src/extract/mod.rs:170-198 | Where the guards hold, placing from the plan leaves, name for name and inode for inode, what walking the layers leaves |
| `TwoRoutes.PlainImagesPlaceAlike` | source/src/extract/mod.rs:170-198 | So it does, on every host, for every image told plain from its tables |
| `Build.Builder.Attach` | source/src/lazy/tree.rs:362-368 | A path is attached exactly when its parent was given a node and the name is free |
| `Build.Builder.AttachDirectories` | source/src/lazy/tree.rs:221-229 | Every planned directory finds its parent |
| `Build.Builder.AttachAll` | source/src/lazy/tree.rs:231-255 | So does every body and symlink, each with a node of its own |
| `Build.Builder.AttachLinks` | source/src/lazy/tree.rs:257-261 | Every hard link finds its target's node |
| `Build.Builder.Build` | source/src/lazy/tree.rs:207-264 | The tree is always built, is a tree, is served as the rootfs the plan would be placed into, and knows each path by the node it leads to |
| `Mounting.ListLayer` | source/src/lazy/tree.rs:231-247 | A layer's list holds exactly its files, each with its body and node, in stream order |
| `Mounting.OwedIsListed` | source/src/lazy/tree.rs:231-247 | Every file the built tree owes from a layer is in that layer's list, under its own node |
| `Mounting.EveryFileIsOwedItsBody` | source/src/lazy/tree.rs:231-247 | Every path of the rootfs to a file leads to a node that owes the very stretch of its layer's stream that the file's entry says, and the layer's list fetches that and nothing else for it |
| `Mounting.Mount` | source/src/lazy/tree.rs:201-264 | From raw tables a tree is served if and only if every path is accepted, nothing stood in the way and every path can be placed; it is then served as the rootfs the plan would be placed into, and each layer's list is in stream order, says where each file is owed and leaves none out |
| `Serve.StepIsServed` | source/src/lazy/tree.rs:362-368 | One name more in the served tree keeps it the rootfs placed so far |
| `Serve.ResolvesToWhatWasGiven` | source/src/lazy/tree.rs:276-278 | A path looked up name by name leads to its node, or nowhere when the rootfs lacks it |
| `Serve.ServedIsServedAs` | source/src/lazy/tree.rs:201-206 | Each path leads to a node of its inode's sort with the same body or target, and two paths to one node just when they share an inode |
| `Served.Tree.Link` | source/src/lazy/tree.rs:288-305 | The new name, the parent's and the inode's counts, or no change |
| `Served.Tree.Detach` | source/src/lazy/tree.rs:340-353 | The name gone and the right count lowered |
| `Served.Tree.Unlink` | source/src/lazy/tree.rs:309-317 | The name gone, and what it led to when it was the last |
| `Served.Tree.Rename` | source/src/lazy/tree.rs:321-337 | The name moved, or no change |
| `Served.Rootfs.Make` | source/src/lazy/fs.rs:812-825 | The errno and the new table of a create, as `Answers.MakingIsGranted` and `Answers.MakingMakes` read them |
| `Served.Rootfs.Remove` | source/src/lazy/fs.rs:829-849 | The errno and the new table of an unlink or rmdir, as `Answers.RemovalIsGranted` and `Answers.RemovalRemoves` read them |
| `Served.Rootfs.LinkTo` | source/src/lazy/fs.rs:1233-1255 | The errno and the new table of a link, as `Answers.LinkIsGranted` and `Answers.LinkLinks` read them |
| `Served.Rootfs.Within` | source/src/lazy/fs.rs:853-864 | The climb ends and tells exactly whether a directory is inside another |
| `Served.Rootfs.RenameTo` | source/src/lazy/fs.rs:1267-1323 | The errno and the new table of a rename |
| `Answers.MakingIsGranted` | source/src/lazy/fs.rs:812-825 | On any tree, something is made exactly when the parent is a directory and the name is free in it, and each error tells which of these failed |
| `Answers.MakingMakes` | source/src/lazy/fs.rs:812-825 | What is made is one node more, of the sort asked for and with what was given, under that name, counted, and nothing else is different |
| `Answers.RemovalIsGranted` | source/src/lazy/fs.rs:829-849 | On any tree, an unlink is granted exactly when the name is there and leads to no directory, an rmdir exactly when it leads to an empty one, and each error tells why not |
| `Answers.RemovalRemoves` | source/src/lazy/fs.rs:829-849 | Granted, the names are all but that one, and what it led to is gone exactly when it was a directory or that was its last name, its count lowered otherwise |
| `Answers.LinkIsGranted` | source/src/lazy/fs.rs:1233-1255 | On any tree, a link is granted exactly for what is no directory, under a name free in a directory, and each error tells why not |
| `Answers.LinkLinks` | source/src/lazy/fs.rs:1233-1255 | Granted, there is one name more, for that very inode, and nothing else is different |
| `Answers.RenameIsGranted` | source/src/lazy/fs.rs:1267-1323 | On any tree, a rename is granted exactly when no exchange is asked for, the name is there, it does not go below itself, and its new place is free in a directory or holds something of the same sort that may give way |
| `Answers.RenameMoves` | source/src/lazy/fs.rs:1267-1323 | Granted, the new place leads where the old did, the old is no name any more, every other name leads where it did, and what gave way is gone with its last name |
| `Inodes.LinkIsLinked` | source/src/lazy/tree.rs:288-305 | Linking is giving a name in the namespace and counting it |
| `Inodes.UnlinkIsLost` | source/src/lazy/tree.rs:309-317 | Unlinking is losing a name, a file or an empty directory |
| `Inodes.RenameIsMoved` | source/src/lazy/tree.rs:321-337 | Renaming is moving one name, and a directory's parent with it |
| `Namespaces.MovedDirIsTree` | source/src/lazy/fs.rs:1285-1288 | A directory moved anywhere but below itself leaves a tree |
| `Namespaces.EverythingIsReached` | source/src/lazy/tree.rs:143-146 | Everything live is found from the root |
| `Namespaces.OnePathToADirectory` | source/src/lazy/tree.rs:133-141 | A directory by one path only, so nothing is inside itself |
| `Changes.AnsweringKeepsTheTree` | source/src/lazy/fs.rs:812-864 | Whatever is asked, the inode table stays a tree |
| `Changes.EveryRunKeepsTheTree` | source/src/lazy/fs.rs:1233-1323 | After every sequence of requests each live inode is reached, each directory by one path, a file counts its names, a directory two and its subdirectories |
| `Changes.RefusalChangesNothing` | source/src/lazy/fs.rs:1267-1323 | A refused request changes the table if and only if it is a rename of a name onto itself: a property of the handler, the kernel answering those without asking it |
| `Changes.RenameLosesTheFile` | source/src/lazy/fs.rs:1290-1317 | The handler given any file with one name to rename onto itself answers with an error and loses it |
| `Changes.AFileJustMadeHasOneName` | source/src/lazy/fs.rs:1148-1190 | Every tree with room for a name leads to one with such a file |
| `Spans.AdvanceTo` | source/src/extract/spans.rs:190-194 | The loop stops at the last checkpoint at or before an offset |
| `Spans.Absorb` | source/src/extract/spans.rs:196-202 | The loop takes the files that begin before the limit and gives where the last ends |
| `Spans.PlanLayer` | source/src/extract/spans.rs:165-219 | The nested loops end, and cut a layer's files into consecutive non-empty ranges, each beginning inside the span of a checkpoint at or before its first body, at rising checkpoints no earlier than the last span the unit before inflated |
| `Spans.CheckpointsRise` | source/src/extract/spans.rs:211-216 | Units start at strictly rising checkpoints |
| `Spans.OneSpanTwoUnits` | source/src/extract/spans.rs:155-164 | No span is inflated by more than two units, and those are consecutive |
| `Spans.EveryFileIsCut` | source/src/extract/spans.rs:187-209 | Each file is in exactly one unit |
| `Spans.CuttingEnds` | source/src/extract/spans.rs:187-217 | The loop comes to an end if and only if every body begins before the stream ends |
| `Spans.AnEmptyLastFileIsNeverTaken` | source/src/extract/spans.rs:199-202 | An empty file at the end of its stream is never taken |
| `Units.PlanUnits` | source/src/extract/spans.rs:165-219 | Each layer with files has its digest checked once and every unit of its files run once, nothing else is queued, and nothing comes after something lighter |
| `Units.UnitsWeighSomething` | source/src/extract/spans.rs:63-79 | The weight of a unit is never below nothing, so its unsigned difference does not wrap |
| `Units.Worker.InflateFor` | source/src/extract/spans.rs:299-322 | The buffer holds the stream from the checkpoint for as far as is needed, or a span is broken or the stream too short |
| `Units.Worker.RunSpan` | source/src/extract/spans.rs:289-341 | A unit writes every one of its bodies with exactly its bytes of the stream, whatever the buffer held, and fails exactly when a span it needs is broken or its last body runs past the stream |
| `Units.CutOut` | source/src/extract/spans.rs:324-339 | Every slice lies inside what was inflated |
| `Indexed.TilesAreAnIndex` | source/src/zinfo.rs:265-271 | The spans of an index that tiles its stream are one to cut files by: offsets rise and each span ends where the next begins |
| `Indexed.InflateAll` | source/src/zinfo.rs:279-331 | Every span inflated on its own from the blob its index describes gives its own bytes of the stream and none is broken, which is what units and fetches take for granted |
| `Pool.ScheduleDoesNotShow` | source/src/extract/spans.rs:234-285 | Under every schedule the pool reports the lowest failing unit, and nothing when none fails |
| `Pool.EveryMoveCounts` | source/src/extract/spans.rs:241-278 | Every move of an unfinished worker brings the end nearer |
| `Reorder.SentInOrder` | source/src/extract/pipeline.rs:198-277 | Under every schedule what is sent on is the first spans in order, and at the end all of them, or all before the lowest that fails, which is the one reported, unless the receiver leaves first |
| `Reorder.ChannelIsBounded` | source/src/extract/pipeline.rs:214-262 | Under every schedule the channel holds no more spans than there are workers |
| `Ahead.CappedJustWhen` | source/src/extract/pipeline.rs:214-262 | For a layer all of whose spans inflate, under every schedule no more spans are inflated ahead of being sent on than the channel holds and one for each worker, if and only if there is one worker or there are no more spans than that |
| `Reorder.SomeoneCanMove` | source/src/extract/pipeline.rs:198-277 | Until the receiver and every worker have ended, someone can move: a full channel never holds up everyone |
| `Reorder.EveryMoveCounts` | source/src/extract/pipeline.rs:198-277 | Every turn that changes anything lowers a measure of what is left |
| `Reorder.EveryRunCanEnd` | source/src/extract/pipeline.rs:198-277 | From any state a run can go on to its end in no more turns than the measure |
| `Reorder.MovesAreBounded` | source/src/extract/pipeline.rs:198-277 | No schedule, however long, has more moves than the measure |
| `Reorder.AtRestItIsSettled` | source/src/extract/pipeline.rs:198-277 | Whatever the schedule, a run in which nobody can move has ended the one way there is: the receiver gone where its room ran out, or every span sent, or the lowest failing span reported and all before it sent, in order |
| `Checkpoints.BuildZstd` | source/src/zinfo.rs:207-263 | For every blob and span size there is an index if and only if the blob's frames can be read to its end and it needs no more than a million checkpoints; it then has exactly those, so far apart, every one at a data frame and every data frame with one at it or less than a span before it, and describes the stream. Too many are reported exactly when too many are needed |
| `Checkpoints.SpansFitInTheStream` | source/src/zinfo.rs:207-263 | A stream needs no more checkpoints than spans of that size fit in it, and one |
| `Checkpoints.DecodeSpan` | source/src/zinfo.rs:518-562 | Decoding gives the span's bytes when the index describes the blob, and never a different number of them |
| `Checkpoints.ExtractSpan` | source/src/zinfo.rs:279-331 | A span extracted is its bytes of the stream, or an error, or as many bytes with the same checksum |
| `Checkpoints.DescribedTiles` | source/src/zinfo.rs:207-263 | The spans of an index built from a blob tile its stream |
| `Checkpoints.SpansAreTheStream` | source/src/zinfo.rs:265-271 | All spans one after another are the whole stream |
| `Checkpoints.Stored` | source/src/zinfo.rs:104-120 | Windows over an uncompressed blob tile it, none longer than asked and none empty |
| `Frames.YieldsTheRest` | source/src/zinfo.rs:582-608 | Frames are met one way only: past a boundary lies what that boundary yields |
| `Frames.SkippableTold` | source/src/zinfo.rs:564-580 | Byte for byte what a skippable frame begins with, and how long the four bytes after that make it |
| `Stream.ChunkReader.FillBuf` | source/src/extract/pipeline.rs:307-327 | What is handed out is the front of what is left, empty only at the end |
| `Stream.ChunkReader.Read` | source/src/extract/pipeline.rs:335-343 | What is read and what is left are what there was |
| `Stream.Peeked.Peek` | source/src/extract/pipeline.rs:471-482 | Looking consumes nothing and shows the next bytes, fewer only at the end |
| `Stream.Peeked.Skip` | source/src/extract/pipeline.rs:485-497 | Exactly so many bytes are passed over, or there were fewer |
| `Stream.Peeked.Consume` | source/src/extract/pipeline.rs:510-516 | The prefix and the reader behind it stay the true rest of the stream |
| `Stream.Peeked.Read` | source/src/extract/pipeline.rs:519-529 | What is read, looked at before or not, and what is left are what there was |
| `Stream.MultiFrameZstd.Read` | source/src/extract/pipeline.rs:402-442 | However the blob is split into chunks and whatever pieces the decoder asks for, nothing more comes only at the blob's end, with all that the data frames decode to handed out in order, and an error only at a frame that does not decode or end |
| `Stream.GivenIsABeginning` | source/src/extract/pipeline.rs:402-442 | At every point, in the middle of a frame too, what has been handed out is the beginning of what the blob decodes to |
| `Fetch.SpanOf` | source/src/lazy/source.rs:108-116 | The last checkpoint at or before a body |
| `Fetch.Served.Inflate` | source/src/lazy/source.rs:134-163 | The window covers the body and the whole span it begins in, with the stream's bytes; there is none if and only if a span the body needs is broken or the body runs past the stream |
| `Fetch.Served.Bytes` | source/src/lazy/source.rs:166-175 | A body's bytes exactly when the window covers it, never stale ones |
| `Fetch.Served.FetchSpan` | source/src/lazy/fs.rs:543-571 | Every file wholly inside the window is in hand with its own bytes and nothing else has changed; it fails if and only if a span the body needs is broken or the body runs past the stream, and then changes nothing; what is still owed is as listed |
| `Contents.UnmodifiedReadsAsTheImage` | source/src/lazy/fs.rs:607-688 | Over every interleaving, an image file that is not gone has bytes, and they are the image's unless the container changed its backing file |
| `Contents.RunProgresses` | source/src/lazy/fs.rs:607-671 | A file's content only moves from layer to object to backed to gone, and no object changes |
| `Contents.CommitsLeaveWritesAlone` | source/src/lazy/fs.rs:655-671 | A racing commit leaves the backing file and its bytes as they are |
| `Contents.NoObjectIsWritten` | source/src/lazy/fs.rs:716-724 | No step writes a store object |
| `Contents.ObjectHandlesReadTheImage` | source/src/lazy/fs.rs:680-724 | A handle opened on a store object reads the image's bytes for as long as it is open, whatever is copied up, written, committed or removed after |
| `Contents.WritesAreSeen` | source/src/lazy/fs.rs:680-724 | What one handle writes is what every handle on the same backing file reads, and no handle on a store object |
| `Contents.StagedIsPlaced` | source/src/lazy/fs.rs:658-671 | Putting a staged file in place replaces no backing file |
| `Effects.FetchIsPlaced` | source/src/lazy/fs.rs:590-593 | A fetch left to itself that stages a body and commits it gives the file a backing file of its own with the image's bytes, and no other file is served differently |
| `Effects.FetchIsServed` | source/src/lazy/fs.rs:574-617 | One that publishes it has the file served from the new object with the image's bytes, and no other file is served differently |
| `Effects.FoundIsServed` | source/src/lazy/fs.rs:607-617 | One that finds an object has the file served from that, making no file |
| `Effects.CopyUpCopies` | source/src/lazy/fs.rs:631-653 | A copy-up gives a file served from an object a backing file of its own with the same bytes |
| `Effects.TruncatedReadsAsLeft` | source/src/lazy/fs.rs:907-940 | A file with a backing file reads, once truncated, as what was left in it, and nothing else reads differently |
| `Effects.WrittenReadsAsLeft` | source/src/lazy/fs.rs:680-724 | So does one written through a handle opened on it |
| `Effects.MadeReadsAsMade` | source/src/lazy/fs.rs:1148-1190 | A file the container makes has a backing file of its own with the bytes it is made with |
| `Effects.UnlinkedIsGone` | source/src/lazy/fs.rs:829-849 | A file unlinked and cleaned up after is gone with its backing file, and what has it open keeps it |
| `Stitch.Keep` | source/src/rootfs.rs:69-76 | The numbering loop keeps the used entries in order and numbers them by rank |
| `Stitch.Mark` | source/src/rootfs.rs:56-67 | What is marked is exactly what is placed |
| `Stitch.Stitch` | source/src/rootfs.rs:45-105 | The stitched table is each layer's used entries, and the work under their new numbers |
| `Stitch.OnlyWhatIsPlaced` | source/src/rootfs.rs:69-84 | Only what is placed is kept, in the order it had |
| `Stitch.SameFile` | source/src/rootfs.rs:83-93 | The file under the new number is the file that was there |
| `Stitch.SameLink` | source/src/rootfs.rs:83-95 | And so is the link |
| `Stitch.StitchedChecks` | source/src/rootfs.rs:246-301 | A reader accepts every table a stitch writes |
| `Stitch.IsForItsOwn` | source/src/rootfs.rs:109-128 | A table is for the manifest and layers it was stitched for, and no others |
| `Stitch.StitchedPlacesTheSame` | source/src/rootfs.rs:83-105 | Under their new numbers the files, symlinks and hard links are the same entries in the same order |
| `Stitch.StitchedIsThePlan` | source/src/rootfs.rs:137-244 | Stitched, written and read back, a table is itself and places the same files, symlinks and hard links in the same order |
| `Recording.PlannedWorkHolds` | source/src/rootfs.rs:45-56 | The work of every plan names entries of its layers, each of its kind, files in stream order, with paths and targets in their one form |
| `Recording.OfLayerIsAll` | source/src/extract/plan.rs:357-400 | Grouping the planned files by layer leaves none of them out |
| `Recording.StitchImage` | source/src/rootfs.rs:45-105 | From an image's raw tables there is a stitched table if and only if the image has a plan with work, and it keeps what that plan places |
| `Recording.RecordedIsThePlan` | source/src/rootfs.rs:137-301 | Every table so recorded is accepted when read back, is the one written, and places what the image's own plan places |
| `Recording.EveryAttributeIsRecorded` | source/src/extract/plan.rs:246-256 | Every entry with attributes is listed under its layer and path, in the layers' order, and nothing else is |
| `Rootfs.Check` | source/src/rootfs.rs:249-301 | The loops accept exactly the tables the specified check does, which are those that can be trusted: everything named is there and of its kind, files come in stream order, every path and every link's target is spelled from names that do not climb |
| `Reading.ChecksMeans` | source/src/rootfs.rs:249-301 | A table is accepted exactly when everything its work places is an entry of its layers of that kind, each layer's files come in stream order, every attribute is of a layer it has, and every path and hard link's target is the spelling of some names of which none is empty, `.` or `..` or holds a slash |
| `Reading.WhatIsReadCanBeTrusted` | source/src/rootfs.rs:180-301 | Whatever the bytes and whoever wrote them, a table read from them can be so trusted, is within its limits, and is all that they hold |
| `Reading.NothingTrustedIsRefused` | source/src/rootfs.rs:180-301 | And one that can be trusted is never refused when what was written is read back |
| `Reading.TablePutBack` | source/src/rootfs.rs:180-244 | Bytes are read as a table if and only if they are what some table within its limits is written as, with nothing left over, and then as that one |
| `Reading.NumbersAreLittleEndian` | source/src/entries.rs:375-416 | Byte for byte what two and four bytes of a table say |
| `Rootfs.TableBack` | source/src/rootfs.rs:137-244 | Any table within its length limits is read back as it was written |
| `Rootfs.FramedBack` | source/src/entries.rs:204-238 | So is the frame around it |
| `Rootfs.WrittenIsReadBack` | source/src/rootfs.rs:180-244 | Reading back what was written gives it exactly when it passes the check |
| `Codec.EntryBack` | source/src/entries.rs:241-284 | An entry is taken back with whatever follows it left over |
| `Codec.FromCode` | source/src/entries.rs:71-92 | A kind is read only from its own code, and no kind has another |
| `Codec.ListBack` | source/src/rootfs.rs:315-321 | A list is taken back through its count, which the plausibility bound never refuses |
| `Store.HitsHoldWhatTheyName` | source/src/store.rs:233-246 | In every run of launches publishing, collecting and dying, whatever comes between its opening a file, reading its size and handing it out, a lookup that hits hands out bytes of the size asked for that hash to their name |
| `Store.SeesWhatItOpens` | source/src/store.rs:233-240 | A lookup left to itself finds an object just when one of that name and size is there |
| `Store.OpenFilesStay` | source/src/store.rs:370-376 | An open file keeps its bytes whatever is published over it or removed from under it |
| `Objects.PublishedIsFound` | source/src/store.rs:249-298 | In every state launches can come to, publishing a body leaves all of it open to its launch, and lookups find one of its size from then on if and only if no file of another size has the name: publishing replaces none |
| `Objects.ACrashEmpties` | source/src/store.rs:229-240 | A crash can empty any object, ends everything under way and takes no name |
| `Objects.EmptiedUntilRemoved` | source/src/store.rs:229-298 | An emptied object is a miss, whatever is published, until a collection has taken its name |
| `Objects.OnlyACollectionRemoves` | source/src/store.rs:429-459 | A name goes only when a collection that found its object stale takes it, and no file changes by that |
| `Objects.DyingLeavesNothing` | source/src/store.rs:254-298 | In every state and whatever comes after, a launch that dies before its body has a name leaves nothing behind: no name ever leads to what it had written, and nobody has it open |
| `Objects.WhatIsReadIsKept` | source/src/store.rs:429-459 | What is read keeps its name for the retention from then on, with the power on, if and only if no collection has found it stale already |
| `Store.HitsSurviveFromTheEnd` | source/src/store.rs:233-246 | In every run, what a writable launch hands out keeps its name for thirteen days, whatever launches do with the power on, if and only if at the lookup's last step, its touch when one is due, the name still leads to that file and no collection has it in hand |
| `Store.HitsSurviveFromTheOpen` | source/src/store.rs:233-246 | In every run and for any time a lookup may take, an object it opens now is kept for thirteen days however others' steps come between its own, if and only if no collection has the name in hand now and the object will not have gone unread past the retention by then |
| `Store.InHandAtTheOpen` | source/src/store.rs:429-459 | For every body there is a run from the start that publishes it, leaves it unread past the retention, and has a collection read its age before a lookup opens it: it is not kept |
| `Store.LookedAtBetween` | source/src/store.rs:236-243 | For every body there is a run in which no collection is under way when a lookup opens it and none has it in hand when the lookup ends, no time has passed, and the name is gone: a collection looked and removed between the open and the touch |

## Left out

- Plain.PlainImagesMirror: gives conditions that are enough, not the least that are; `Mirror.ReplayMirrorsTheWalk` has the exact ones.
- Mirror.ReplayMirrorsTheWalk: says nothing of an image whose replay met something in the way; the plan refuses to place those, and where a write through a symlink lands depends on the host (`Walk.Outcome.Elsewhere`).
- Shadow.SkippingIsHarmless: covers images whose replay met nothing in the way; the code also skips bodies when something was written through a symlink.
- Partings.AbsoluteParts: assumes a host without the directory the absolute target names, the walk following such a link out of the rootfs.
- Extractor.RootfsExtractor.Unpack: takes a layer as its table of canonical entries rather than as a tar stream, and the host as a parameter that tells whether something outside the rootfs is a directory.
- Extractor.RootfsExtractor.ApplyOpaqueWhiteout: the code returns quietly for a directory outside the rootfs; here every way through a link is `WentElsewhere`.
- Planner.WorkOf: `sort_unstable` is modelled as a stable insertion sort, its result being any order the keys allow.
- Units.Worker.RunSpan: returns the bodies; writing them out is `Placement`.
- Reorder.SentInOrder: models the channel and the spans; the hash of the blob, whose verdict is reported first, is not part of it.
- Ahead.CappedJustWhen: is about layers all of whose spans inflate; a span that fails ends its worker, and in the end the layer.
- Layering.LastWordsStand: leaves out paths where a directory entry can meet a symlink; which gives way there is `Simulation.DirectoryStep`.
- Recording.StitchImage: takes the modes of the directories as a parameter.
- Checkpoints.BuildZstd: takes decoding one frame as a function of the bytes from where it starts; numbers are unbounded where the code guards an addition.
- Checkpoints.DecodeSpan: gives a new sequence; the shared buffer it is written into is `Units.Worker.Write`.
- Stream.MultiFrameZstd.Read: asked again after a frame broke off it fails again, where the code leaves the answer to the decoder. Errors of the reader itself are not modelled.
- Stream.ChunkReader.FillBuf: gives used chunks back to no pool.
- Fetch.Served.FetchSpan: places bodies without the store; finding, publishing and committing objects are steps of `Contents` and `Store`.
- Contents.UnmodifiedReadsAsTheImage: a fetch brings the image's bytes or fails; `Fetch` and `Checkpoints` say why.
- Codec.EntryBack: tables are written and read as values rather than through a growing buffer and a cursor. Lengths are bounded as the format bounds them.
- Rootfs.TableBack: does not require a digest to be text when it is read.
- Stitch.StitchedIsThePlan: deflate is any pair of functions that undo each other.
- Store.HitsSurviveFromTheEnd: holds as long as the machine keeps its power, its clock does not go back and no touch is refused; the code does not look at what its touch comes to.
- Served.Rootfs.RenameTo: what becomes of the backing file of whatever gave way is in `Contents`.
- Gzip checkpoints, their windows and bit offsets: the state of zlib.
- Directory modes, modification times and extended attributes: they decide no name. A removed directory's deferred mode outlives it.
- `ParentCache`: a cache of what `Walk.WayTo` says afresh.
- Reading a layer's tar headers, and the mapping, locking and permissions of the store, its claims, its sweep of bundles and its cursor over shards.
- Helping other launches with a claimed span, fetching ahead, recording and `statfs`: they decide when a fetch happens, not what it brings.
- The kernel's side of the served filesystem, handles' passthrough and what `setattr` does beside truncating.
- Everything from the command line to `runc`: configuration and foreign effects.
