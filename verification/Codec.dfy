/** How recorded tables are laid out in bytes, and how they are read back.
    Everything is put in front of the bytes that follow it. */
module Codec {
  import opened Paths
  import L = Layers

  /** What is taken from the front of some bytes, and what follows it; `None`
      when they end first or what is there is no such thing. */
  type Taken<X> = Option<(X, Bytes)>

  /** Whatever follows it, it is taken back. */
  ghost predicate IsTakenBack<X>(x: X, put: (X, Bytes) -> Bytes, take: Bytes -> Taken<X>) {
    forall rest :: TakesBack(x, put, take, rest)
  }

  ghost predicate TakesBack<X>(x: X, put: (X, Bytes) -> Bytes, take: Bytes -> Taken<X>, rest: Bytes) {
    take(put(x, rest)) == Some((x, rest)) && |put(x, rest)| > |rest|
  }

  // ------------------------------------------------------------ numbers

  function Limit(width: nat): nat {
    if width == 0 then 1 else 0x100 * Limit(width - 1)
  }

  /** A number in so many bytes, the lowest first. */
  function Put(n: nat, width: nat, rest: Bytes): (b: Bytes)
    ensures |b| == width + |rest|
  {
    if width == 0 then rest else [(n % 0x100) as Byte] + Put(n / 0x100, width - 1, rest)
  }

  function Take(b: Bytes, width: nat): (taken: Taken<nat>)
    ensures taken.Some? <==> width <= |b|
  {
    if width == 0 then Some((0, b))
    else if b == [] then None
    else
      match Take(b[1..], width - 1)
      case Some((high, rest)) => Some((b[0] as nat + 0x100 * high, rest))
      case None => None
  }

  lemma {:induction false} NumberBack(n: nat, width: nat, rest: Bytes)
    requires n < Limit(width)
    ensures Take(Put(n, width, rest), width) == Some((n, rest))
  {
    if width > 0 {
      var b := Put(n, width, rest);
      NumberBack(n / 0x100, width - 1, rest);
      assert b[0] as nat == n % 0x100 && b[1..] == Put(n / 0x100, width - 1, rest);
    }
  }

  // ------------------------------------------------------------ names

  function TakeBytes(b: Bytes, len: nat): Taken<Bytes> {
    if len <= |b| then Some((b[..len], b[len..])) else None
  }

  lemma BytesBack(s: Bytes, rest: Bytes)
    ensures TakeBytes(s + rest, |s|) == Some((s, rest))
  {
    assert (s + rest)[..|s|] == s && (s + rest)[|s|..] == rest;
  }

  /** Bytes behind their length in two bytes. */
  function PutString(s: Bytes, rest: Bytes): (b: Bytes)
    ensures |b| == 2 + |s| + |rest|
  {
    Put(|s|, 2, s + rest)
  }

  function TakeString(b: Bytes): Taken<Bytes> {
    match Take(b, 2)
    case Some((len, rest)) => TakeBytes(rest, len)
    case None => None
  }

  predicate IsShort(s: Bytes) {
    |s| < 0x1_0000
  }

  lemma StringBack(s: Bytes, rest: Bytes)
    requires IsShort(s)
    ensures TakeString(PutString(s, rest)) == Some((s, rest))
  {
    assert Limit(2) == 0x1_0000;
    NumberBack(|s|, 2, s + rest);
    BytesBack(s, rest);
  }

  // ------------------------------------------------------------ lists

  function PutAll<X>(xs: seq<X>, put: (X, Bytes) -> Bytes, rest: Bytes): Bytes {
    if xs == [] then rest else put(xs[0], PutAll(xs[1..], put, rest))
  }

  function TakeAll<X>(n: nat, b: Bytes, take: Bytes -> Taken<X>): Taken<seq<X>> {
    if n == 0 then Some(([], b))
    else
      match take(b)
      case None => None
      case Some((x, after)) =>
        match TakeAll(n - 1, after, take)
        case None => None
        case Some((xs, rest)) => Some(([x] + xs, rest))
  }

  lemma {:induction false} AllBack<X>(xs: seq<X>, put: (X, Bytes) -> Bytes, take: Bytes -> Taken<X>, rest: Bytes)
    requires forall x | x in xs :: IsTakenBack(x, put, take)
    ensures TakeAll(|xs|, PutAll(xs, put, rest), take) == Some((xs, rest))
    ensures |xs| + |rest| <= |PutAll(xs, put, rest)|
  {
    if xs != [] {
      AllBack(xs[1..], put, take, rest);
      assert xs[0] in xs && TakesBack(xs[0], put, take, PutAll(xs[1..], put, rest));
      assert xs == [xs[0]] + xs[1..];
    }
  }

  /** A list behind its count in four bytes. */
  function PutList<X>(xs: seq<X>, put: (X, Bytes) -> Bytes, rest: Bytes): Bytes {
    Put(|xs|, 4, PutAll(xs, put, rest))
  }

  /** A count larger than what the rest of the bytes has room for is refused. */
  function TakeList<X>(b: Bytes, take: Bytes -> Taken<X>): Taken<seq<X>> {
    match Take(b, 4)
    case None => None
    case Some((count, rest)) => if count > |rest| then None else TakeAll(count, rest, take)
  }

  lemma ListBack<X>(xs: seq<X>, put: (X, Bytes) -> Bytes, take: Bytes -> Taken<X>, rest: Bytes)
    requires |xs| < Limit(4) && forall x | x in xs :: IsTakenBack(x, put, take)
    ensures TakeList(PutList(xs, put, rest), take) == Some((xs, rest))
  {
    NumberBack(|xs|, 4, PutAll(xs, put, rest));
    AllBack(xs, put, take, rest);
  }

  // ------------------------------------------------------------ entries

  datatype Numbers = Numbers(mode: nat, mtime: nat, offset: nat, size: nat)

  datatype Names = Names(path: Bytes, link: Bytes, xattrs: Bytes)

  /** An entry as its table records it. */
  datatype Entry = Entry(kind: L.Kind, numbers: Numbers, names: Names, sha256: Option<Bytes>)

  function Code(kind: L.Kind): Byte {
    match kind
    case File => 0
    case Directory => 1
    case Symlink => 2
    case HardLink => 3
    case Unsupported => 4
    case Sparse => 5
  }

  function FromCode(code: Byte): (kind: Option<L.Kind>)
    ensures kind.Some? ==> Code(kind.value) == code
    ensures kind.None? ==> forall k :: Code(k) != code
  {
    match code
    case 0 => Some(L.File)
    case 1 => Some(L.Directory)
    case 2 => Some(L.Symlink)
    case 3 => Some(L.HardLink)
    case 4 => Some(L.Unsupported)
    case 5 => Some(L.Sparse)
    case _ => None
  }

  const HASH_BYTES := 32

  /** What an entry can hold: numbers of their widths, names whose lengths fit in
      two bytes, and a hash just when it is a file. */
  predicate CanBeRecorded(e: Entry) {
    NumbersFit(e.numbers) && NamesFit(e.names) && HashFits(e.kind, e.sha256)
  }

  predicate NumbersFit(n: Numbers) {
    n.mode < Limit(4) && n.mtime < Limit(8) && n.offset < Limit(8) && n.size < Limit(8)
  }

  predicate NamesFit(n: Names) {
    IsShort(n.path) && IsShort(n.link) && IsShort(n.xattrs)
  }

  predicate HashFits(kind: L.Kind, sha256: Option<Bytes>) {
    if kind.IsFile() then sha256.Some? && |sha256.value| == HASH_BYTES else sha256.None?
  }

  function PutNumbers(n: Numbers, rest: Bytes): (b: Bytes)
    ensures |b| == 28 + |rest|
  {
    Put(n.mode, 4, Put(n.mtime, 8, Put(n.offset, 8, Put(n.size, 8, rest))))
  }

  function TakeNumbers(b: Bytes): Taken<Numbers> {
    match Take(b, 4)
    case None => None
    case Some((mode, b1)) =>
      match Take(b1, 8)
      case None => None
      case Some((mtime, b2)) =>
        match Take(b2, 8)
        case None => None
        case Some((offset, b3)) =>
          match Take(b3, 8)
          case None => None
          case Some((size, rest)) => Some((Numbers(mode, mtime, offset, size), rest))
  }

  lemma NumbersBack(n: Numbers, rest: Bytes)
    requires NumbersFit(n)
    ensures TakeNumbers(PutNumbers(n, rest)) == Some((n, rest))
  {
    var size := Put(n.size, 8, rest);
    var offset := Put(n.offset, 8, size);
    NumberBack(n.size, 8, rest);
    NumberBack(n.offset, 8, size);
    NumberBack(n.mtime, 8, offset);
    NumberBack(n.mode, 4, Put(n.mtime, 8, offset));
  }

  function PutNames(n: Names, rest: Bytes): (b: Bytes)
    ensures |b| >= |rest|
  {
    PutString(n.path, PutString(n.link, PutString(n.xattrs, rest)))
  }

  function TakeNames(b: Bytes): Taken<Names> {
    match TakeString(b)
    case None => None
    case Some((path, b1)) =>
      match TakeString(b1)
      case None => None
      case Some((link, b2)) =>
        match TakeString(b2)
        case None => None
        case Some((xattrs, rest)) => Some((Names(path, link, xattrs), rest))
  }

  lemma NamesBack(n: Names, rest: Bytes)
    requires NamesFit(n)
    ensures TakeNames(PutNames(n, rest)) == Some((n, rest))
  {
    var xattrs := PutString(n.xattrs, rest);
    StringBack(n.xattrs, rest);
    StringBack(n.link, xattrs);
    StringBack(n.path, PutString(n.link, xattrs));
  }

  function PutHash(sha256: Option<Bytes>, rest: Bytes): (b: Bytes)
    ensures |b| >= |rest|
  {
    if sha256.Some? then sha256.value + rest else rest
  }

  function TakeHash(b: Bytes, kind: L.Kind): Taken<Option<Bytes>> {
    if !kind.IsFile() then Some((None, b))
    else match TakeBytes(b, HASH_BYTES) case Some((hash, rest)) => Some((Some(hash), rest)) case None => None
  }

  lemma HashBack(kind: L.Kind, sha256: Option<Bytes>, rest: Bytes)
    requires HashFits(kind, sha256)
    ensures TakeHash(PutHash(sha256, rest), kind) == Some((sha256, rest))
  {
    if sha256.Some? { BytesBack(sha256.value, rest); }
  }

  function TakeKind(b: Bytes): Taken<L.Kind> {
    if b == [] then None
    else match FromCode(b[0]) case Some(kind) => Some((kind, b[1..])) case None => None
  }

  function PutEntry(e: Entry, rest: Bytes): Bytes {
    [Code(e.kind)] + PutNumbers(e.numbers, PutNames(e.names, PutHash(e.sha256, rest)))
  }

  function TakeEntry(b: Bytes): Taken<Entry> {
    match TakeKind(b)
    case None => None
    case Some((kind, b1)) =>
      match TakeNumbers(b1)
      case None => None
      case Some((numbers, b2)) =>
        match TakeNames(b2)
        case None => None
        case Some((names, b3)) =>
          match TakeHash(b3, kind)
          case None => None
          case Some((sha256, rest)) => Some((Entry(kind, numbers, names, sha256), rest))
  }

  lemma KindBack(kind: L.Kind, rest: Bytes)
    ensures TakeKind([Code(kind)] + rest) == Some((kind, rest))
  {
    assert ([Code(kind)] + rest)[1..] == rest;
  }

  lemma EntryBack(e: Entry, rest: Bytes)
    requires CanBeRecorded(e)
    ensures TakeEntry(PutEntry(e, rest)) == Some((e, rest))
  {
    var hash := PutHash(e.sha256, rest);
    var names := PutNames(e.names, hash);
    KindBack(e.kind, PutNumbers(e.numbers, names));
    NumbersBack(e.numbers, names);
    NamesBack(e.names, hash);
    HashBack(e.kind, e.sha256, rest);
  }

  lemma EntryIsTakenBack(e: Entry)
    requires CanBeRecorded(e)
    ensures IsTakenBack(e, PutEntry, TakeEntry)
  {
    forall rest ensures TakesBack(e, PutEntry, TakeEntry, rest) {
      EntryBack(e, rest);
    }
  }
}
