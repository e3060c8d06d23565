/** What the threads bring about: a step that is open does what it is for, to the
    file it is for, and no other file is served differently. */
module Effects {
  import P = Paths
  import opened Contents

  /** Two steps of one thread with nothing in between. */
  function Twice<B(==)>(s: State<B>, image: Image<B>, first: Event<B>, second: Event<B>): State<B> {
    Step(Step(s, image, first), image, second)
  }

  /** No other file has other contents, or keeps them elsewhere. */
  ghost predicate OthersKeepTheirPlace<B>(s: State<B>, after: State<B>, ino: nat) {
    && after.content - {ino} == s.content - {ino}
    && after.backing - {ino} == s.backing - {ino}
  }

  /** No file is lost or rewritten, but the one that backs the inode. */
  ghost predicate FilesAreKept<B>(s: State<B>, after: State<B>, ino: nat) {
    forall f | f in s.files && !(ino in s.backing && f == s.backing[ino]) ::
      f in after.files && after.files[f] == s.files[f]
  }

  /** No other file is served differently. */
  ghost predicate OthersAreAsTheyWere<B>(s: State<B>, after: State<B>, image: Image<B>, ino: nat) {
    forall other | other != ino :: Bytes(after, image, other) == Bytes(s, image, other)
  }

  lemma OtherStays<B>(s: State<B>, after: State<B>, image: Image<B>, ino: nat, other: nat)
    requires Inv(s, image) && OthersKeepTheirPlace(s, after, ino) && FilesAreKept(s, after, ino) && other != ino
    ensures Bytes(after, image, other) == Bytes(s, image, other)
  {
    assert ContentHolds(s, image, other) && BackingHolds(s, image, other) && BackingHolds(s, image, ino);
    assert other in after.content - {ino} <==> other in s.content - {ino};
    assert other in after.backing - {ino} <==> other in s.backing - {ino};
    if other in s.content { assert (after.content - {ino})[other] == (s.content - {ino})[other]; }
    if other in s.backing { assert (after.backing - {ino})[other] == (s.backing - {ino})[other]; }
  }

  lemma OthersStay<B>(s: State<B>, after: State<B>, image: Image<B>, ino: nat)
    requires Inv(s, image) && OthersKeepTheirPlace(s, after, ino) && FilesAreKept(s, after, ino)
    ensures OthersAreAsTheyWere(s, after, image, ino)
  {
    forall other | other != ino ensures Bytes(after, image, other) == Bytes(s, image, other) {
      OtherStays(s, after, image, ino, other);
    }
  }

  // ------------------------------------------------------------ fetching

  /** The file has a new backing file with the bytes, and that is all. */
  ghost predicate IsBackedNow<B>(s: State<B>, after: State<B>, ino: nat, file: nat, bytes: B) {
    && after.content == s.content[ino := Backed] && after.backing == s.backing[ino := file]
    && file !in s.files && after.files == s.files[file := bytes] && after.objects == s.objects
  }

  /** The file is served from a new object with the bytes, and that is all. */
  ghost predicate IsObjectNow<B>(s: State<B>, after: State<B>, ino: nat, file: nat, bytes: B) {
    && after.content == s.content[ino := Object(file)] && after.backing == s.backing
    && file !in s.files && after.files == s.files[file := bytes] && after.objects == s.objects + {file}
  }

  lemma BackedReads<B>(s: State<B>, after: State<B>, image: Image<B>, ino: nat, file: nat, bytes: B)
    requires Inv(s, image) && ino in image && IsBackedNow(s, after, ino, file, bytes)
    ensures Bytes(after, image, ino) == P.Some(bytes) && OthersAreAsTheyWere(s, after, image, ino)
  {
    OthersStay(s, after, image, ino);
  }

  lemma ObjectReads<B>(s: State<B>, after: State<B>, image: Image<B>, ino: nat, file: nat, bytes: B)
    requires Inv(s, image) && ino in image && IsObjectNow(s, after, ino, file, bytes)
    ensures Bytes(after, image, ino) == P.Some(bytes) && OthersAreAsTheyWere(s, after, image, ino)
  {
    OthersStay(s, after, image, ino);
  }

  lemma StagedThenCommitted<B>(s: State<B>, image: Image<B>, ino: nat)
    requires FilesHold(s) && ino in image && ino in s.content && s.content[ino] == Layer
    ensures IsBackedNow(s, Twice(s, image, StageBody(ino), Commit(s.next + 1)), ino, s.next, image[ino])
  {
    var staged := Step(s, image, StageBody(ino));
    assert staged.tasks[s.next + 1] == Staged(ino, s.next) && staged.content == s.content
           && staged.backing == s.backing && staged.files == s.files[s.next := image[ino]];
  }

  lemma PublishedThenCommitted<B>(s: State<B>, image: Image<B>, ino: nat)
    requires FilesHold(s) && ino in image && ino in s.content && s.content[ino] == Layer
    ensures IsObjectNow(s, Twice(s, image, PublishObject(ino), CommitObject(s.next + 1)), ino, s.next, image[ino])
  {
    var published := Step(s, image, PublishObject(ino));
    assert published.tasks[s.next + 1] == Found(ino, s.next) && published.content == s.content
           && published.backing == s.backing && published.files == s.files[s.next := image[ino]];
  }

  /** A fetch that stages a body and commits it gives the file a backing file of
      its own with the image's bytes. */
  lemma FetchIsPlaced<B>(s: State<B>, image: Image<B>, ino: nat)
    requires Inv(s, image) && ino in image && s.content[ino] == Layer
    ensures var after := Twice(s, image, StageBody(ino), Commit(s.next + 1));
            && IsBackedNow(s, after, ino, s.next, image[ino])
            && Bytes(after, image, ino) == P.Some(image[ino]) && OthersAreAsTheyWere(s, after, image, ino)
  {
    StagedThenCommitted(s, image, ino);
    BackedReads(s, Twice(s, image, StageBody(ino), Commit(s.next + 1)), image, ino, s.next, image[ino]);
  }

  /** One that publishes it has it served from the object. */
  lemma FetchIsServed<B>(s: State<B>, image: Image<B>, ino: nat)
    requires Inv(s, image) && ino in image && s.content[ino] == Layer
    ensures var after := Twice(s, image, PublishObject(ino), CommitObject(s.next + 1));
            && IsObjectNow(s, after, ino, s.next, image[ino])
            && Bytes(after, image, ino) == P.Some(image[ino]) && OthersAreAsTheyWere(s, after, image, ino)
  {
    PublishedThenCommitted(s, image, ino);
    ObjectReads(s, Twice(s, image, PublishObject(ino), CommitObject(s.next + 1)), image, ino, s.next, image[ino]);
  }

  /** One that finds an object with the bytes has it served from that one, and
      makes no file. */
  lemma FoundIsServed<B>(s: State<B>, image: Image<B>, ino: nat, file: nat)
    requires Inv(s, image) && ino in image && s.content[ino] == Layer
    requires file in s.objects && s.files[file] == image[ino]
    ensures var after := Twice(s, image, FindObject(ino, file), CommitObject(s.next));
            && after.content == s.content[ino := Object(file)] && after.files == s.files
            && Bytes(after, image, ino) == P.Some(image[ino]) && OthersAreAsTheyWere(s, after, image, ino)
  {
    var found := Step(s, image, FindObject(ino, file));
    assert found.tasks[s.next] == Found(ino, file) && found.content == s.content
           && found.backing == s.backing && found.files == s.files;
    OthersStay(s, Twice(s, image, FindObject(ino, file), CommitObject(s.next)), image, ino);
  }

  // ------------------------------------------------------------ writing

  lemma CopiedThenCommitted<B>(s: State<B>, image: Image<B>, ino: nat)
    requires FilesHold(s) && ino in s.content && s.content[ino].Object? && s.content[ino].file in s.files
    ensures IsBackedNow(s, Step(Twice(s, image, BeginCopy(ino), StageCopy(s.next)), image, Commit(s.next + 2)), ino,
                        s.next + 1, s.files[s.content[ino].file])
  {
    var copied := Twice(s, image, BeginCopy(ino), StageCopy(s.next));
    assert copied.tasks[s.next + 2] == Staged(ino, s.next + 1) && copied.content == s.content
           && copied.backing == s.backing && copied.files == s.files[s.next + 1 := s.files[s.content[ino].file]];
  }

  /** A copy-up gives a file served from an object a backing file of its own with
      the same bytes. */
  lemma CopyUpCopies<B>(s: State<B>, image: Image<B>, ino: nat)
    requires Inv(s, image) && ino in image && s.content[ino].Object?
    ensures var after := Step(Twice(s, image, BeginCopy(ino), StageCopy(s.next)), image, Commit(s.next + 2));
            && IsBackedNow(s, after, ino, s.next + 1, image[ino])
            && Bytes(after, image, ino) == Bytes(s, image, ino) && OthersAreAsTheyWere(s, after, image, ino)
  {
    assert ContentHolds(s, image, ino);
    CopiedThenCommitted(s, image, ino);
    BackedReads(s, Step(Twice(s, image, BeginCopy(ino), StageCopy(s.next)), image, Commit(s.next + 2)), image, ino,
                s.next + 1, image[ino]);
  }

  /** The file reads as the bytes, and is backed by the file it was. */
  ghost predicate ReadsAsLeft<B>(s: State<B>, after: State<B>, image: Image<B>, ino: nat, bytes: B) {
    && after.content == s.content && after.backing == s.backing
    && Bytes(after, image, ino) == P.Some(bytes) && OthersAreAsTheyWere(s, after, image, ino)
  }

  lemma WrittenReads<B>(s: State<B>, after: State<B>, image: Image<B>, ino: nat, bytes: B)
    requires Inv(s, image) && ino in image && s.content[ino] == Backed && ino in s.backing
    requires after.content == s.content && after.backing == s.backing
             && after.files == s.files[s.backing[ino] := bytes]
    ensures ReadsAsLeft(s, after, image, ino, bytes)
  {
    OthersStay(s, after, image, ino);
  }

  /** A file with a backing file reads, once truncated, as what was left in it. */
  lemma TruncatedReadsAsLeft<B>(s: State<B>, image: Image<B>, ino: nat, bytes: B)
    requires Inv(s, image) && ino in image && s.content[ino] == Backed
    ensures ReadsAsLeft(s, Step(s, image, Truncate(ino, bytes)), image, ino, bytes)
  {
    assert ContentHolds(s, image, ino);
    WrittenReads(s, Step(s, image, Truncate(ino, bytes)), image, ino, bytes);
  }

  /** So does one written through a handle open on it. */
  lemma WrittenReadsAsLeft<B>(s: State<B>, image: Image<B>, ino: nat, bytes: B)
    requires Inv(s, image) && ino in image && s.content[ino] == Backed
    ensures ReadsAsLeft(s, Twice(s, image, OpenBacking(ino), Write(s.next, bytes)), image, ino, bytes)
  {
    assert ContentHolds(s, image, ino);
    var open := Step(s, image, OpenBacking(ino));
    assert open.handles[s.next] == Handle(s.backing[ino], false) && open.content == s.content
           && open.backing == s.backing && open.files == s.files;
    WrittenReads(s, Twice(s, image, OpenBacking(ino), Write(s.next, bytes)), image, ino, bytes);
  }

  // ------------------------------------------------------------ making and removing

  /** A file the container makes has the bytes it is made with. */
  lemma MadeReadsAsMade<B>(s: State<B>, image: Image<B>, ino: nat, bytes: B)
    requires Inv(s, image) && ino !in s.content
    ensures var after := Twice(s, image, Create(ino), MakeBacking(ino, bytes));
            && IsBackedNow(s, after, ino, s.next, bytes) && OthersAreAsTheyWere(s, after, image, ino)
  {
    assert BackingHolds(s, image, ino);
    var made := Step(s, image, Create(ino));
    assert made.content == s.content[ino := Backed] && made.backing == s.backing && made.files == s.files;
    OthersStay(s, Twice(s, image, Create(ino), MakeBacking(ino, bytes)), image, ino);
  }

  /** A file unlinked and cleaned up after is gone for good, and has no backing
      file; open files are as they were. */
  lemma UnlinkedIsGone<B>(s: State<B>, image: Image<B>, ino: nat)
    requires Inv(s, image) && ino in s.content
    ensures var after := Twice(s, image, Unlink(ino), CleanUp(ino));
            && after.content == s.content[ino := Gone] && after.backing == s.backing - {ino}
            && after.files == s.files && after.handles == s.handles
            && Bytes(after, image, ino) == P.None && OthersAreAsTheyWere(s, after, image, ino)
  {
    var gone := Step(s, image, Unlink(ino));
    assert gone.content == s.content[ino := Gone] && gone.backing == s.backing && gone.files == s.files;
    OthersStay(s, Twice(s, image, Unlink(ino), CleanUp(ino)), image, ino);
  }
}
