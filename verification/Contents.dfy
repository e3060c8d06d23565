/** Where the contents of served files are, under any interleaving of fetches,
    copy-ups, opens, writes and removals. */
module Contents {
  import opened Paths

  /** Still only in its layer, in an object of the content store, in a backing
      file of its own, or nowhere any more. */
  datatype Content = Layer | Object(file: nat) | Backed | Gone

  function Rank(content: Content): nat {
    match content
    case Layer => 0
    case Object(_) => 1
    case Backed => 2
    case Gone => 3
  }

  /** What a thread between two steps has in hand for an inode: a store object it
      found or published, an object it is about to copy, or a file it has staged. */
  datatype Task = Found(ino: nat, file: nat) | Copying(ino: nat, file: nat) | Staged(ino: nat, file: nat)

  /** An open file, and whether it is a store object. */
  datatype Handle = Handle(file: nat, isObject: bool)

  /** `files` is every file on the host by identity, which outlives its name.
      `backing` is the name each inode's backing file has. `written` keeps which
      files the container has changed. */
  datatype State<B> = State(
    content: map<nat, Content>, files: map<nat, B>, objects: set<nat>, backing: map<nat, nat>,
    tasks: map<nat, Task>, handles: map<nat, Handle>, written: set<nat>, next: nat)

  /** A step of some thread. `bytes` is what the container leaves in a file. */
  datatype Event<B> =
    | FindObject(ino: nat, file: nat)
    | PublishObject(ino: nat)
    | StageBody(ino: nat)
    | BeginCopy(ino: nat)
    | StageCopy(task: nat)
    | CommitObject(task: nat)
    | Commit(task: nat)
    | OpenObject(ino: nat)
    | OpenBacking(ino: nat)
    | Write(handle: nat, bytes: B)
    | Truncate(ino: nat, bytes: B)
    | Create(ino: nat)
    | MakeBacking(ino: nat, bytes: B)
    | Unlink(ino: nat)
    | CleanUp(ino: nat)

  /** The image's own files, and the bytes it gives each. */
  type Image<B> = map<nat, B>

  function Start<B>(image: Image<B>): State<B> {
    State(map ino | ino in image :: Layer, map[], {}, map[], map[], map[], {}, 0)
  }

  // ------------------------------------------------------------ the steps

  function WithTask<B>(s: State<B>, task: Task): State<B> {
    s.(tasks := s.tasks[s.next := task], next := s.next + 1)
  }

  function WithHandle<B>(s: State<B>, handle: Handle): State<B> {
    s.(handles := s.handles[s.next := handle], next := s.next + 1)
  }

  function WithFile<B>(s: State<B>, bytes: B): State<B> {
    s.(files := s.files[s.next := bytes], next := s.next + 1)
  }

  function Written<B>(s: State<B>, file: nat, bytes: B): State<B> {
    s.(files := s.files[file := bytes], written := s.written + {file})
  }

  /** The inode is served from the object from now on, if its contents are still
      in its layer. */
  function ObjectCommitted<B>(s: State<B>, task: nat): State<B>
    requires task in s.tasks
  {
    var t, done := s.tasks[task], s.(tasks := s.tasks - {task});
    if t.ino in s.content && s.content[t.ino] == Layer
    then done.(content := s.content[t.ino := Object(t.file)])
    else done
  }

  /** A staged file becomes the backing file if the contents are still the
      image's. If not, it goes. */
  function StagedCommitted<B>(s: State<B>, task: nat): State<B>
    requires task in s.tasks
  {
    var t, done := s.tasks[task], s.(tasks := s.tasks - {task});
    if t.ino in s.content && (s.content[t.ino].Layer? || s.content[t.ino].Object?)
    then done.(content := s.content[t.ino := Backed], backing := s.backing[t.ino := t.file])
    else done.(files := s.files - {t.file})
  }

  /** A step that is not open to any thread leaves things as they are. */
  function Step<B(==)>(s: State<B>, image: Image<B>, event: Event<B>): State<B> {
    match event
    case FindObject(ino, file) =>
      if ino in image && file in s.objects && file in s.files && s.files[file] == image[ino]
      then WithTask(s, Found(ino, file)) else s
    case PublishObject(ino) =>
      if ino in image
      then WithTask(WithFile(s, image[ino]).(objects := s.objects + {s.next}), Found(ino, s.next))
      else s
    case StageBody(ino) =>
      if ino in image then WithTask(WithFile(s, image[ino]), Staged(ino, s.next)) else s
    case BeginCopy(ino) =>
      if ino in s.content && s.content[ino].Object? then WithTask(s, Copying(ino, s.content[ino].file)) else s
    case StageCopy(task) =>
      if task in s.tasks && s.tasks[task].Copying? && s.tasks[task].file in s.files
      then WithTask(WithFile(s, s.files[s.tasks[task].file]).(tasks := s.tasks - {task}),
                    Staged(s.tasks[task].ino, s.next))
      else s
    case CommitObject(task) => if task in s.tasks && s.tasks[task].Found? then ObjectCommitted(s, task) else s
    case Commit(task) => if task in s.tasks && s.tasks[task].Staged? then StagedCommitted(s, task) else s
    case OpenObject(ino) =>
      if ino in s.content && s.content[ino].Object? then WithHandle(s, Handle(s.content[ino].file, true)) else s
    case OpenBacking(ino) => if ino in s.backing then WithHandle(s, Handle(s.backing[ino], false)) else s
    case Write(handle, bytes) =>
      if handle in s.handles && !s.handles[handle].isObject then Written(s, s.handles[handle].file, bytes) else s
    case Truncate(ino, bytes) => if ino in s.backing then Written(s, s.backing[ino], bytes) else s
    case Create(ino) => if ino !in s.content then s.(content := s.content[ino := Backed]) else s
    case MakeBacking(ino, bytes) =>
      if ino !in s.content || ino in image then s
      else if ino in s.backing then Written(s, s.backing[ino], bytes)
      else Written(WithFile(s, bytes), s.next, bytes).(backing := s.backing[ino := s.next])
    case Unlink(ino) => if ino in s.content then s.(content := s.content[ino := Gone]) else s
    case CleanUp(ino) =>
      if ino in s.content && s.content[ino].Gone? then s.(backing := s.backing - {ino}) else s
  }

  function Run<B(==)>(s: State<B>, image: Image<B>, events: seq<Event<B>>): State<B> {
    if events == [] then s else Step(Run(s, image, events[..|events| - 1]), image, events[|events| - 1])
  }

  // ------------------------------------------------------------ what every step keeps

  /** A store object holding an image file's bytes. */
  ghost predicate IsObjectFor<B>(s: State<B>, image: Image<B>, ino: nat, file: nat) {
    ino in image && file in s.objects && file in s.files && s.files[file] == image[ino]
  }

  ghost predicate ContentHolds<B>(s: State<B>, image: Image<B>, ino: nat) {
    ino in s.content ==>
      match s.content[ino]
      case Layer => ino in image && ino !in s.backing
      case Object(file) => IsObjectFor(s, image, ino, file) && ino !in s.backing
      case Backed => ino in image ==> ino in s.backing
      case Gone => true
  }

  /** A file nothing but its own use may reach yet: it is no object, no backing
      file, and no handle has it open. */
  ghost predicate IsPrivate<B>(s: State<B>, file: nat) {
    && file in s.files && file !in s.objects && file !in s.written
    && (forall ino | ino in s.backing :: s.backing[ino] != file)
    && (forall h | h in s.handles :: s.handles[h].file != file)
  }

  ghost predicate TaskHolds<B>(s: State<B>, image: Image<B>, task: nat) {
    task in s.tasks ==>
      match s.tasks[task]
      case Found(ino, file) => IsObjectFor(s, image, ino, file)
      case Copying(ino, file) => IsObjectFor(s, image, ino, file)
      case Staged(ino, file) =>
        && ino in image && IsPrivate(s, file) && s.files[file] == image[ino]
        && forall other | other in s.tasks && other != task :: !StagedAs(s.tasks[other], file)
  }

  predicate StagedAs(task: Task, file: nat) {
    task.Staged? && task.file == file
  }

  /** A backing file is its inode's alone, and an image file's holds the image's
      bytes until the container changes it. */
  ghost predicate BackingHolds<B>(s: State<B>, image: Image<B>, ino: nat) {
    ino in s.backing ==>
      var file := s.backing[ino];
      && ino in s.content && file in s.files && file !in s.objects
      && (ino in image && file !in s.written ==> s.files[file] == image[ino])
      && forall other | other in s.backing && other != ino :: s.backing[other] != file
  }

  ghost predicate HandleHolds<B>(s: State<B>, h: nat) {
    h in s.handles ==>
      s.handles[h].file in s.files && (s.handles[h].isObject <==> s.handles[h].file in s.objects)
  }

  ghost predicate FilesHold<B>(s: State<B>) {
    && s.objects <= s.files.Keys && s.objects !! s.written
    && (forall f | f in s.files :: f < s.next) && (forall f | f in s.written :: f < s.next)
    && (forall t | t in s.tasks :: t < s.next) && (forall h | h in s.handles :: h < s.next)
  }

  ghost predicate Inv<B>(s: State<B>, image: Image<B>) {
    && FilesHold(s) && (forall ino | ino in image :: ino in s.content)
    && (forall ino :: ContentHolds(s, image, ino))
    && (forall ino :: BackingHolds(s, image, ino))
    && (forall task :: TaskHolds(s, image, task))
    && (forall h :: HandleHolds(s, h))
  }

  /** What a task must be to be taken on. */
  ghost predicate CanTakeOn<B>(s: State<B>, image: Image<B>, task: Task) {
    match task
    case Staged(ino, file) =>
      && ino in image && IsPrivate(s, file) && s.files[file] == image[ino]
      && forall other | other in s.tasks :: !StagedAs(s.tasks[other], file)
    case _ => IsObjectFor(s, image, task.ino, task.file)
  }

  lemma WithTaskKeeps<B>(s: State<B>, image: Image<B>, task: Task)
    requires Inv(s, image) && CanTakeOn(s, image, task)
    ensures Inv(WithTask(s, task), image)
  {
    var after := WithTask(s, task);
    forall ino ensures ContentHolds(after, image, ino) && BackingHolds(after, image, ino) {
      assert ContentHolds(s, image, ino) && BackingHolds(s, image, ino);
    }
    forall h ensures HandleHolds(after, h) {
      assert HandleHolds(s, h);
    }
    forall t ensures TaskHolds(after, image, t) {
      assert TaskHolds(s, image, t);
    }
  }

  lemma TaskDoneKeeps<B>(s: State<B>, image: Image<B>, task: nat)
    requires Inv(s, image)
    ensures Inv(s.(tasks := s.tasks - {task}), image)
  {
    var after := s.(tasks := s.tasks - {task});
    forall ino ensures ContentHolds(after, image, ino) && BackingHolds(after, image, ino) {
      assert ContentHolds(s, image, ino) && BackingHolds(s, image, ino);
    }
    forall h ensures HandleHolds(after, h) {
      assert HandleHolds(s, h);
    }
    forall t ensures TaskHolds(after, image, t) {
      assert TaskHolds(s, image, t);
    }
  }

  lemma WithFileKeeps<B>(s: State<B>, image: Image<B>, bytes: B)
    requires Inv(s, image)
    ensures Inv(WithFile(s, bytes), image) && IsPrivate(WithFile(s, bytes), s.next)
    ensures forall t | t in s.tasks :: !StagedAs(s.tasks[t], s.next)
  {
    var after := WithFile(s, bytes);
    forall ino ensures ContentHolds(after, image, ino) && BackingHolds(after, image, ino) {
      assert ContentHolds(s, image, ino) && BackingHolds(s, image, ino);
    }
    forall h ensures HandleHolds(after, h) {
      assert HandleHolds(s, h);
    }
    forall t ensures TaskHolds(after, image, t) {
      assert TaskHolds(s, image, t);
    }
    forall t | t in s.tasks ensures !StagedAs(s.tasks[t], s.next) {
      assert TaskHolds(s, image, t);
    }
    forall ino | ino in s.backing ensures s.backing[ino] != s.next {
      assert BackingHolds(s, image, ino);
    }
    forall h | h in s.handles ensures s.handles[h].file != s.next {
      assert HandleHolds(s, h);
    }
  }

  /** A private file nothing has staged can become an object. */
  lemma WithObjectKeeps<B>(s: State<B>, image: Image<B>, file: nat)
    requires Inv(s, image) && IsPrivate(s, file) && forall t | t in s.tasks :: !StagedAs(s.tasks[t], file)
    ensures Inv(s.(objects := s.objects + {file}), image)
  {
    var after := s.(objects := s.objects + {file});
    forall ino ensures ContentHolds(after, image, ino) && BackingHolds(after, image, ino) {
      assert ContentHolds(s, image, ino) && BackingHolds(s, image, ino);
    }
    forall h ensures HandleHolds(after, h) {
      assert HandleHolds(s, h);
    }
    forall t ensures TaskHolds(after, image, t) {
      assert TaskHolds(s, image, t);
    }
  }

  lemma StagingKeeps<B>(s: State<B>, image: Image<B>, ino: nat)
    requires Inv(s, image) && ino in image
    ensures Inv(WithTask(WithFile(s, image[ino]), Staged(ino, s.next)), image)
  {
    WithFileKeeps(s, image, image[ino]);
    WithTaskKeeps(WithFile(s, image[ino]), image, Staged(ino, s.next));
  }

  lemma PublishingKeeps<B>(s: State<B>, image: Image<B>, ino: nat)
    requires Inv(s, image) && ino in image
    ensures Inv(WithTask(WithFile(s, image[ino]).(objects := s.objects + {s.next}), Found(ino, s.next)), image)
  {
    WithFileKeeps(s, image, image[ino]);
    WithObjectKeeps(WithFile(s, image[ino]), image, s.next);
    WithTaskKeeps(WithFile(s, image[ino]).(objects := s.objects + {s.next}), image, Found(ino, s.next));
  }

  lemma CopyingKeeps<B>(s: State<B>, image: Image<B>, task: nat)
    requires Inv(s, image) && task in s.tasks && s.tasks[task].Copying?
    ensures s.tasks[task].file in s.files
    ensures Inv(WithTask(WithFile(s, s.files[s.tasks[task].file]).(tasks := s.tasks - {task}),
                         Staged(s.tasks[task].ino, s.next)), image)
  {
    assert TaskHolds(s, image, task);
    var bytes := s.files[s.tasks[task].file];
    WithFileKeeps(s, image, bytes);
    TaskDoneKeeps(WithFile(s, bytes), image, task);
    WithTaskKeeps(WithFile(s, bytes).(tasks := s.tasks - {task}), image, Staged(s.tasks[task].ino, s.next));
  }

  lemma ObjectCommittedKeeps<B>(s: State<B>, image: Image<B>, task: nat)
    requires Inv(s, image) && task in s.tasks && s.tasks[task].Found?
    ensures Inv(ObjectCommitted(s, task), image)
  {
    assert TaskHolds(s, image, task);
    TaskDoneKeeps(s, image, task);
    var done, after := s.(tasks := s.tasks - {task}), ObjectCommitted(s, task);
    forall ino ensures ContentHolds(after, image, ino) && BackingHolds(after, image, ino) {
      assert ContentHolds(done, image, ino) && BackingHolds(done, image, ino);
    }
    forall h ensures HandleHolds(after, h) {
      assert HandleHolds(done, h);
    }
    forall t ensures TaskHolds(after, image, t) {
      assert TaskHolds(done, image, t);
    }
  }

  /** Putting a staged file in place meets no backing file that is there already. */
  lemma StagedIsPlaced<B>(s: State<B>, image: Image<B>, task: nat)
    requires Inv(s, image) && task in s.tasks && s.tasks[task].Staged?
    requires var ino := s.tasks[task].ino; ino in s.content && (s.content[ino].Layer? || s.content[ino].Object?)
    ensures s.tasks[task].ino !in s.backing && Inv(StagedCommitted(s, task), image)
  {
    assert TaskHolds(s, image, task) && ContentHolds(s, image, s.tasks[task].ino);
    var t, after := s.tasks[task], StagedCommitted(s, task);
    forall ino ensures ContentHolds(after, image, ino) && BackingHolds(after, image, ino) {
      assert ContentHolds(s, image, ino) && BackingHolds(s, image, ino);
    }
    forall h ensures HandleHolds(after, h) {
      assert HandleHolds(s, h);
    }
    forall other ensures TaskHolds(after, image, other) {
      assert TaskHolds(s, image, other);
    }
  }

  lemma StagedIsDropped<B>(s: State<B>, image: Image<B>, task: nat)
    requires Inv(s, image) && task in s.tasks && s.tasks[task].Staged?
    requires var ino := s.tasks[task].ino; !(ino in s.content && (s.content[ino].Layer? || s.content[ino].Object?))
    ensures Inv(StagedCommitted(s, task), image)
  {
    assert TaskHolds(s, image, task);
    var after := StagedCommitted(s, task);
    forall ino ensures ContentHolds(after, image, ino) && BackingHolds(after, image, ino) {
      assert ContentHolds(s, image, ino) && BackingHolds(s, image, ino);
    }
    forall h ensures HandleHolds(after, h) {
      assert HandleHolds(s, h);
    }
    forall other ensures TaskHolds(after, image, other) {
      assert TaskHolds(s, image, other);
    }
  }

  lemma WithHandleKeeps<B>(s: State<B>, image: Image<B>, handle: Handle)
    requires Inv(s, image) && handle.file in s.files && (handle.isObject <==> handle.file in s.objects)
    requires forall t | t in s.tasks :: !StagedAs(s.tasks[t], handle.file)
    ensures Inv(WithHandle(s, handle), image)
  {
    var after := WithHandle(s, handle);
    forall ino ensures ContentHolds(after, image, ino) && BackingHolds(after, image, ino) {
      assert ContentHolds(s, image, ino) && BackingHolds(s, image, ino);
    }
    forall h ensures HandleHolds(after, h) {
      assert HandleHolds(s, h);
    }
    forall t ensures TaskHolds(after, image, t) {
      assert TaskHolds(s, image, t);
    }
  }

  lemma NoneStaged<B>(s: State<B>, image: Image<B>, file: nat)
    requires Inv(s, image)
    requires file in s.objects || (exists ino :: ino in s.backing && s.backing[ino] == file)
             || exists h :: h in s.handles && s.handles[h].file == file
    ensures forall t | t in s.tasks :: !StagedAs(s.tasks[t], file)
  {
    forall t | t in s.tasks ensures !StagedAs(s.tasks[t], file) {
      assert TaskHolds(s, image, t);
    }
  }

  lemma WrittenKeeps<B>(s: State<B>, image: Image<B>, file: nat, bytes: B)
    requires Inv(s, image) && file in s.files && file !in s.objects
    requires forall t | t in s.tasks :: !StagedAs(s.tasks[t], file)
    ensures Inv(Written(s, file, bytes), image)
  {
    var after := Written(s, file, bytes);
    forall ino ensures ContentHolds(after, image, ino) && BackingHolds(after, image, ino) {
      assert ContentHolds(s, image, ino) && BackingHolds(s, image, ino);
    }
    forall h ensures HandleHolds(after, h) {
      assert HandleHolds(s, h);
    }
    forall t ensures TaskHolds(after, image, t) {
      assert TaskHolds(s, image, t);
    }
  }

  lemma ContentChangeKeeps<B>(s: State<B>, image: Image<B>, ino: nat, content: Content)
    requires Inv(s, image)
    requires (content == Backed && ino !in s.content) || (content == Gone && ino in s.content)
    ensures Inv(s.(content := s.content[ino := content]), image)
  {
    var after := s.(content := s.content[ino := content]);
    forall i ensures ContentHolds(after, image, i) && BackingHolds(after, image, i) {
      assert ContentHolds(s, image, i) && BackingHolds(s, image, i);
    }
    forall h ensures HandleHolds(after, h) {
      assert HandleHolds(s, h);
    }
    forall t ensures TaskHolds(after, image, t) {
      assert TaskHolds(s, image, t);
    }
  }

  lemma CleaningKeeps<B>(s: State<B>, image: Image<B>, ino: nat)
    requires Inv(s, image) && ino in s.content && s.content[ino].Gone?
    ensures Inv(s.(backing := s.backing - {ino}), image)
  {
    var after := s.(backing := s.backing - {ino});
    forall i ensures ContentHolds(after, image, i) && BackingHolds(after, image, i) {
      assert ContentHolds(s, image, i) && BackingHolds(s, image, i);
    }
    forall h ensures HandleHolds(after, h) {
      assert HandleHolds(s, h);
    }
    forall t ensures TaskHolds(after, image, t) {
      assert TaskHolds(s, image, t);
    }
  }

  lemma BackingMadeKeeps<B>(s: State<B>, image: Image<B>, ino: nat, bytes: B)
    requires Inv(s, image) && ino in s.content && ino !in image && ino !in s.backing
    ensures Inv(Written(WithFile(s, bytes), s.next, bytes).(backing := s.backing[ino := s.next]), image)
  {
    WithFileKeeps(s, image, bytes);
    WrittenKeeps(WithFile(s, bytes), image, s.next, bytes);
    var made := Written(WithFile(s, bytes), s.next, bytes);
    var after := made.(backing := s.backing[ino := s.next]);
    assert ContentHolds(made, image, ino);
    forall i ensures ContentHolds(after, image, i) && BackingHolds(after, image, i) {
      assert ContentHolds(made, image, i) && BackingHolds(made, image, i);
      assert BackingHolds(s, image, i);
    }
    forall h ensures HandleHolds(after, h) {
      assert HandleHolds(made, h);
    }
    forall t ensures TaskHolds(after, image, t) {
      assert TaskHolds(made, image, t) && TaskHolds(s, image, t);
    }
  }

  lemma OpeningKeeps<B>(s: State<B>, image: Image<B>, ino: nat)
    requires Inv(s, image)
    ensures Inv(Step(s, image, OpenObject(ino)), image) && Inv(Step(s, image, OpenBacking(ino)), image)
  {
    assert ContentHolds(s, image, ino) && BackingHolds(s, image, ino);
    if ino in s.content && s.content[ino].Object? {
      NoneStaged(s, image, s.content[ino].file);
      WithHandleKeeps(s, image, Handle(s.content[ino].file, true));
    }
    if ino in s.backing {
      NoneStaged(s, image, s.backing[ino]);
      WithHandleKeeps(s, image, Handle(s.backing[ino], false));
    }
  }

  lemma WritingKeeps<B>(s: State<B>, image: Image<B>, handle: nat, bytes: B)
    requires Inv(s, image)
    ensures Inv(Step(s, image, Write(handle, bytes)), image)
  {
    assert HandleHolds(s, handle);
    if handle in s.handles && !s.handles[handle].isObject {
      NoneStaged(s, image, s.handles[handle].file);
      WrittenKeeps(s, image, s.handles[handle].file, bytes);
    }
  }

  lemma TruncatingKeeps<B>(s: State<B>, image: Image<B>, ino: nat, bytes: B)
    requires Inv(s, image)
    ensures Inv(Step(s, image, Truncate(ino, bytes)), image) && Inv(Step(s, image, MakeBacking(ino, bytes)), image)
  {
    assert BackingHolds(s, image, ino);
    if ino in s.backing {
      NoneStaged(s, image, s.backing[ino]);
      WrittenKeeps(s, image, s.backing[ino], bytes);
    } else if ino in s.content && ino !in image {
      BackingMadeKeeps(s, image, ino, bytes);
    }
  }

  lemma TakingOnKeeps<B>(s: State<B>, image: Image<B>, event: Event<B>)
    requires Inv(s, image) && (event.FindObject? || event.BeginCopy?)
    ensures Inv(Step(s, image, event), image)
  {
    assert ContentHolds(s, image, event.ino);
    match event {
      case FindObject(ino, file) =>
        if Step(s, image, event) != s { WithTaskKeeps(s, image, Found(ino, file)); }
      case BeginCopy(ino) =>
        if ino in s.content && s.content[ino].Object? { WithTaskKeeps(s, image, Copying(ino, s.content[ino].file)); }
    }
  }

  lemma CommittingKeeps<B>(s: State<B>, image: Image<B>, task: nat)
    requires Inv(s, image)
    ensures Inv(Step(s, image, Commit(task)), image) && Inv(Step(s, image, CommitObject(task)), image)
  {
    if task in s.tasks && s.tasks[task].Staged? {
      var ino := s.tasks[task].ino;
      if ino in s.content && (s.content[ino].Layer? || s.content[ino].Object?) {
        StagedIsPlaced(s, image, task);
      } else {
        StagedIsDropped(s, image, task);
      }
    }
    if task in s.tasks && s.tasks[task].Found? { ObjectCommittedKeeps(s, image, task); }
  }

  lemma StepKeepsInv<B>(s: State<B>, image: Image<B>, event: Event<B>)
    requires Inv(s, image)
    ensures Inv(Step(s, image, event), image)
  {
    match event {
      case FindObject(ino, file) => TakingOnKeeps(s, image, event);
      case PublishObject(ino) => if ino in image { PublishingKeeps(s, image, ino); }
      case StageBody(ino) => if ino in image { StagingKeeps(s, image, ino); }
      case BeginCopy(ino) => TakingOnKeeps(s, image, event);
      case StageCopy(task) => if task in s.tasks && s.tasks[task].Copying? { CopyingKeeps(s, image, task); }
      case CommitObject(task) => CommittingKeeps(s, image, task);
      case Commit(task) => CommittingKeeps(s, image, task);
      case OpenObject(ino) => OpeningKeeps(s, image, ino);
      case OpenBacking(ino) => OpeningKeeps(s, image, ino);
      case Write(handle, bytes) => WritingKeeps(s, image, handle, bytes);
      case Truncate(ino, bytes) => TruncatingKeeps(s, image, ino, bytes);
      case Create(ino) => if ino !in s.content { ContentChangeKeeps(s, image, ino, Backed); }
      case MakeBacking(ino, bytes) => TruncatingKeeps(s, image, ino, bytes);
      case Unlink(ino) => if ino in s.content { ContentChangeKeeps(s, image, ino, Gone); }
      case CleanUp(ino) => if ino in s.content && s.content[ino].Gone? { CleaningKeeps(s, image, ino); }
    }
  }

  lemma {:induction false} RunKeepsInv<B>(image: Image<B>, events: seq<Event<B>>)
    ensures Inv(Run(Start(image), image, events), image)
  {
    if events != [] {
      RunKeepsInv(image, events[..|events| - 1]);
      StepKeepsInv(Run(Start(image), image, events[..|events| - 1]), image, events[|events| - 1]);
    }
  }

  // ------------------------------------------------------------ over every run

  /** What one step may do to what was there before it. */
  ghost predicate Progress<B>(s: State<B>, after: State<B>, ino: nat) {
    && (ino in s.content ==> ino in after.content && Rank(s.content[ino]) <= Rank(after.content[ino]))
    && (ino in s.content && s.content[ino].Object? && ino in after.content && after.content[ino].Object? ==>
          after.content[ino] == s.content[ino])
    && (ino in s.backing && ino in after.content && !after.content[ino].Gone? ==>
          ino in after.backing && after.backing[ino] == s.backing[ino])
  }

  ghost predicate ObjectsStand<B>(s: State<B>, after: State<B>) {
    forall f | f in s.objects :: f in after.objects && f in s.files && f in after.files && after.files[f] == s.files[f]
  }

  lemma CommitProgresses<B>(s: State<B>, image: Image<B>, task: nat, ino: nat)
    requires Inv(s, image)
    ensures Progress(s, Step(s, image, Commit(task)), ino) && ObjectsStand(s, Step(s, image, Commit(task)))
    ensures Progress(s, Step(s, image, CommitObject(task)), ino) && ObjectsStand(s, Step(s, image, CommitObject(task)))
  {
    assert TaskHolds(s, image, task) && BackingHolds(s, image, ino) && ContentHolds(s, image, ino);
    if task in s.tasks { assert ContentHolds(s, image, s.tasks[task].ino); }
  }

  lemma WriteProgresses<B>(s: State<B>, image: Image<B>, file: nat, bytes: B, ino: nat)
    requires Inv(s, image) && file in s.files && file !in s.objects
    ensures Progress(s, Written(s, file, bytes), ino) && ObjectsStand(s, Written(s, file, bytes))
  {
    assert BackingHolds(s, image, ino);
  }

  lemma WritesProgress<B>(s: State<B>, image: Image<B>, event: Event<B>, ino: nat)
    requires Inv(s, image) && (event.Write? || event.Truncate? || event.MakeBacking?)
    ensures Progress(s, Step(s, image, event), ino) && ObjectsStand(s, Step(s, image, event))
  {
    assert BackingHolds(s, image, ino);
    match event {
      case Write(handle, bytes) =>
        assert HandleHolds(s, handle);
        if handle in s.handles && !s.handles[handle].isObject {
          WriteProgresses(s, image, s.handles[handle].file, bytes, ino);
        }
      case Truncate(i, bytes) =>
        assert BackingHolds(s, image, i);
        if i in s.backing { WriteProgresses(s, image, s.backing[i], bytes, ino); }
      case MakeBacking(i, bytes) =>
        assert BackingHolds(s, image, i);
        if i in s.backing { WriteProgresses(s, image, s.backing[i], bytes, ino); }
    }
  }

  /** A step takes an inode's content only forward, changes no object, and takes
      a backing file from nothing that is not gone. */
  lemma StepProgresses<B>(s: State<B>, image: Image<B>, event: Event<B>, ino: nat)
    requires Inv(s, image)
    ensures Progress(s, Step(s, image, event), ino) && ObjectsStand(s, Step(s, image, event))
  {
    match event {
      case Commit(task) => CommitProgresses(s, image, task, ino);
      case CommitObject(task) => CommitProgresses(s, image, task, ino);
      case Write(_, _) => WritesProgress(s, image, event, ino);
      case Truncate(_, _) => WritesProgress(s, image, event, ino);
      case MakeBacking(_, _) => WritesProgress(s, image, event, ino);
      case _ => assert BackingHolds(s, image, ino) && ContentHolds(s, image, ino);
    }
  }

  lemma {:induction false} RunProgresses<B>(image: Image<B>, before: seq<Event<B>>, more: seq<Event<B>>, ino: nat)
    ensures var s, after := Run(Start(image), image, before), Run(Start(image), image, before + more);
            Progress(s, after, ino) && ObjectsStand(s, after)
    decreases |more|
  {
    RunKeepsInv(image, before);
    if more == [] {
      assert before + more == before;
    } else {
      var less := more[..|more| - 1];
      assert (before + more)[..|before + more| - 1] == before + less;
      RunProgresses(image, before, less, ino);
      RunKeepsInv(image, before + less);
      assert BackingHolds(Run(Start(image), image, before), image, ino);
      StepProgresses(Run(Start(image), image, before + less), image, more[|more| - 1], ino);
    }
  }

  /** What a read of an image file finds: from its layer, the bytes a fetch
      brings. */
  function Bytes<B>(s: State<B>, image: Image<B>, ino: nat): Option<B> {
    if ino !in image || ino !in s.content then None
    else
      match s.content[ino]
      case Layer => Some(image[ino])
      case Object(file) => if file in s.files then Some(s.files[file]) else None
      case Backed => if ino in s.backing && s.backing[ino] in s.files then Some(s.files[s.backing[ino]]) else None
      case Gone => None
  }

  /** In every run an image file that is not gone has bytes, and they are the
      image's unless the container has written its backing file. */
  lemma UnmodifiedReadsAsTheImage<B>(image: Image<B>, events: seq<Event<B>>, ino: nat)
    requires ino in image
    ensures var s := Run(Start(image), image, events);
            && ino in s.content
            && (!s.content[ino].Gone? ==> Bytes(s, image, ino).Some?)
            && (!s.content[ino].Gone? && !(ino in s.backing && s.backing[ino] in s.written) ==>
                  Bytes(s, image, ino) == Some(image[ino]))
  {
    RunKeepsInv(image, events);
    var s := Run(Start(image), image, events);
    assert ContentHolds(s, image, ino) && BackingHolds(s, image, ino);
  }

  /** Whatever commits race with them, bytes the container has written stay until
      it writes again or the file is gone: a commit leaves the file they are in
      where it is, and as it is. */
  lemma CommitsLeaveWritesAlone<B>(image: Image<B>, events: seq<Event<B>>, task: nat, ino: nat)
    requires var s := Run(Start(image), image, events); ino in s.backing
    ensures var s := Run(Start(image), image, events);
            forall event | event == Commit(task) || event == CommitObject(task) ::
              var after := Step(s, image, event);
              && ino in after.backing && after.backing[ino] == s.backing[ino]
              && s.backing[ino] in s.files && s.backing[ino] in after.files
              && after.files[s.backing[ino]] == s.files[s.backing[ino]]
  {
    RunKeepsInv(image, events);
    var s := Run(Start(image), image, events);
    assert BackingHolds(s, image, ino) && TaskHolds(s, image, task);
    if task in s.tasks {
      assert ContentHolds(s, image, s.tasks[task].ino);
      assert s.tasks[task].Staged? ==> IsPrivate(s, s.tasks[task].file);
    }
  }

  /** A handle that writes never has a store object, so no write changes one. */
  lemma NoObjectIsWritten<B>(image: Image<B>, events: seq<Event<B>>, event: Event<B>, file: nat)
    requires file in Run(Start(image), image, events).objects
    ensures var s := Run(Start(image), image, events);
            && file in s.files && file !in s.written
            && var after := Step(s, image, event);
               file in after.files && after.files[file] == s.files[file] && file !in after.written
  {
    RunKeepsInv(image, events);
    var s := Run(Start(image), image, events);
    StepKeepsInv(s, image, event);
    StepProgresses(s, image, event, 0);
  }

  // ------------------------------------------------------------ what an open handle reads

  /** The handle has the object that held the image's bytes for the inode, and
      reads them still. */
  ghost predicate ReadsTheImage<B>(s: State<B>, image: Image<B>, h: nat, ino: nat) {
    && ino in image && h in s.handles && s.handles[h].isObject
    && IsObjectFor(s, image, ino, s.handles[h].file)
  }

  lemma StepKeepsReading<B>(s: State<B>, image: Image<B>, event: Event<B>, h: nat, ino: nat)
    requires Inv(s, image) && ReadsTheImage(s, image, h, ino)
    ensures ReadsTheImage(Step(s, image, event), image, h, ino)
  {
    StepProgresses(s, image, event, ino);
  }

  /** A handle opened on a store object reads the image's bytes for as long as it
      is open, whatever is copied up, written, committed or removed after that. */
  lemma {:induction false} ObjectHandlesReadTheImage<B>(
      image: Image<B>, before: seq<Event<B>>, ino: nat, more: seq<Event<B>>)
    requires var s := Run(Start(image), image, before); ino in s.content && s.content[ino].Object?
    ensures var s := Run(Start(image), image, before);
            ReadsTheImage(Run(Start(image), image, before + [OpenObject(ino)] + more), image, s.next, ino)
    decreases |more|
  {
    var s := Run(Start(image), image, before);
    if more == [] {
      RunKeepsInv(image, before);
      assert ContentHolds(s, image, ino);
      assert (before + [OpenObject(ino)])[..|before|] == before;
      assert before + [OpenObject(ino)] + more == before + [OpenObject(ino)];
    } else {
      var less := more[..|more| - 1];
      var all := before + [OpenObject(ino)] + more;
      assert all[..|all| - 1] == before + [OpenObject(ino)] + less;
      ObjectHandlesReadTheImage(image, before, ino, less);
      RunKeepsInv(image, before + [OpenObject(ino)] + less);
      var now := Run(Start(image), image, before + [OpenObject(ino)] + less);
      StepKeepsReading(now, image, more[|more| - 1], s.next, ino);
    }
  }

  /** So one opened before a copy-up never sees what another then writes, and one
      opened on the backing file does: what a write leaves there is what every
      handle with that file reads, and no handle with an object does. */
  lemma WritesAreSeen<B>(image: Image<B>, events: seq<Event<B>>, writer: nat, reader: nat, bytes: B)
    requires var s := Run(Start(image), image, events);
             writer in s.handles && !s.handles[writer].isObject && reader in s.handles
    ensures var s := Run(Start(image), image, events);
            var after := Step(s, image, Write(writer, bytes));
            && reader in after.handles && after.handles[reader].file in after.files
            && s.handles[reader].file in s.files
            && after.files[after.handles[reader].file] ==
                 (if s.handles[reader].file == s.handles[writer].file then bytes else s.files[s.handles[reader].file])
            && (s.handles[reader].isObject ==> s.handles[reader].file != s.handles[writer].file)
  {
    RunKeepsInv(image, events);
    var s := Run(Start(image), image, events);
    assert HandleHolds(s, writer) && HandleHolds(s, reader);
  }
}
