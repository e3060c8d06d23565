/** The order of the plan's map: paths compared eight bytes at a time. */
module Keys {
  import opened Paths

  datatype Ordering = Smaller | Equal | Greater

  /** Where `a` comes relative to `b` in `[u8]`'s own order. */
  function Compared(a: Bytes, b: Bytes): Ordering {
    if Less(a, b) then Smaller else if a == b then Equal else Greater
  }

  const WORD: nat := 8

  /** `u64::from_be_bytes`, over a word of any width. */
  function BigEndian(word: Bytes): (n: nat) {
    if word == [] then 0 else BigEndian(word[..|word| - 1]) * 256 + word[|word| - 1]
  }

  /** 256 to the power `n`: one more than the largest number `n` bytes hold. */
  function Capacity(n: nat): (c: nat)
    ensures c > 0
  {
    if n == 0 then 1 else 256 * Capacity(n - 1)
  }

  /** Big endian: the first byte outweighs everything after it. */
  lemma {:induction false} FirstByteLeads(word: Bytes)
    requires word != []
    ensures BigEndian(word) == word[0] * Capacity(|word| - 1) + BigEndian(word[1..])
    ensures BigEndian(word[1..]) < Capacity(|word| - 1)
  {
    if |word| == 1 {
      assert word[..0] == [] && word[1..] == [];
    } else {
      var front, last := word[..|word| - 1], word[|word| - 1];
      FirstByteLeads(front);
      var rest := front[1..];
      assert word[1..][..|word| - 2] == rest && word[1..][|word| - 2] == last;
      assert BigEndian(word[1..]) == BigEndian(rest) * 256 + last;
      Carries(word[0], Capacity(|word| - 2), BigEndian(rest), last);
    }
  }

  lemma Carries(x: nat, unit: nat, rest: nat, last: nat)
    ensures (x * unit + rest) * 256 + last == x * (256 * unit) + (rest * 256 + last)
  {
  }

  lemma LeadingDigit(x: nat, y: nat, unit: nat, p: nat, q: nat)
    requires x < y && p < unit
    ensures x * unit + p < y * unit + q
  {
    assert (x + 1) * unit <= y * unit;
  }

  /** Words of one width are in the order of their bytes. */
  lemma {:induction false} WordsCompareAsBytes(a: Bytes, b: Bytes)
    requires |a| == |b|
    ensures BigEndian(a) < BigEndian(b) <==> Less(a, b)
    ensures BigEndian(a) == BigEndian(b) <==> a == b
  {
    if a != [] {
      FirstByteLeads(a);
      FirstByteLeads(b);
      WordsCompareAsBytes(a[1..], b[1..]);
      var unit := Capacity(|a| - 1);
      if a[0] < b[0] {
        LeadingDigit(a[0], b[0], unit, BigEndian(a[1..]), BigEndian(b[1..]));
      } else if b[0] < a[0] {
        LeadingDigit(b[0], a[0], unit, BigEndian(b[1..]), BigEndian(a[1..]));
      } else {
        assert a == [a[0]] + a[1..] && b == [b[0]] + b[1..];
      }
    }
  }

  /** What two strings share in front decides nothing. */
  lemma {:induction false} SharedFront(front: Bytes, a: Bytes, b: Bytes)
    ensures Less(front + a, front + b) <==> Less(a, b)
    ensures front + a == front + b <==> a == b
  {
    if front == [] {
      assert front + a == a && front + b == b;
    } else {
      SharedFront(front[1..], a, b);
      assert (front + a)[1..] == front[1..] + a && (front + b)[1..] == front[1..] + b;
      assert front + a == [front[0]] + (front[1..] + a);
      assert front + b == [front[0]] + (front[1..] + b);
    }
  }

  /** And once two equally long fronts differ, nothing behind them matters. */
  lemma {:induction false} DifferentFronts(a: Bytes, b: Bytes, ra: Bytes, rb: Bytes)
    requires |a| == |b| && a != b
    ensures Less(a + ra, b + rb) <==> Less(a, b)
    ensures a + ra != b + rb
  {
    assert (a + ra)[..|a|] == a && (b + rb)[..|b|] == b;
    if a[0] == b[0] {
      assert a == [a[0]] + a[1..] && b == [b[0]] + b[1..];
      DifferentFronts(a[1..], b[1..], ra, rb);
      assert (a + ra)[1..] == a[1..] + ra && (b + rb)[1..] == b[1..] + rb;
    }
  }

  /** One step of either loop: the strings agree up to `at`, and what decides
      is the piece of `n` bytes standing there. */
  lemma PieceDecides(a: Bytes, b: Bytes, at: nat, n: nat)
    requires at + n <= |a| && at + n <= |b| && a[..at] == b[..at]
    ensures a[at..at + n] != b[at..at + n] ==>
              Compared(a, b) == Compared(a[at..at + n], b[at..at + n])
    ensures a[at..at + n] == b[at..at + n] ==> a[..at + n] == b[..at + n]
  {
    var x, y := a[at..at + n], b[at..at + n];
    assert a == a[..at] + (x + a[at + n..]) && b == b[..at] + (y + b[at + n..]);
    assert a[..at + n] == a[..at] + x && b[..at + n] == b[..at] + y;
    if x != y {
      SharedFront(a[..at], x + a[at + n..], y + b[at + n..]);
      DifferentFronts(x, y, a[at + n..], b[at + n..]);
    }
  }

  /** The comparison the map makes: whole words while there are any, then the
      bytes left over, then the lengths. It is exactly `[u8]`'s order. */
  method Cmp(ours: Bytes, theirs: Bytes) returns (order: Ordering)
    ensures order == Compared(ours, theirs)
  {
    var common := if |ours| < |theirs| then |ours| else |theirs|;
    var at := 0;
    while at + WORD <= common
      invariant 0 <= at <= common
      invariant ours[..at] == theirs[..at]
    {
      var x, y := ours[at..at + WORD], theirs[at..at + WORD];
      PieceDecides(ours, theirs, at, WORD);
      WordsCompareAsBytes(x, y);
      if BigEndian(x) != BigEndian(y) {
        return if BigEndian(x) < BigEndian(y) then Smaller else Greater;
      }
      at := at + WORD;
    }
    while at < common
      invariant 0 <= at <= common
      invariant ours[..at] == theirs[..at]
    {
      PieceDecides(ours, theirs, at, 1);
      if ours[at] != theirs[at] {
        return if ours[at] < theirs[at] then Smaller else Greater;
      }
      at := at + 1;
    }
    assert ours[..common] == theirs[..common];
    LessIsTotal(ours, theirs);
    if |ours| < |theirs| {
      assert theirs[..|ours|] == ours[..common] == ours;
      PrefixIsLess(ours, theirs);
      return Smaller;
    } else if |theirs| < |ours| {
      assert ours[..|theirs|] == theirs[..common] == theirs;
      PrefixIsLess(theirs, ours);
      return Greater;
    }
    assert ours == ours[..common] && theirs == theirs[..common];
    return Equal;
  }
}
