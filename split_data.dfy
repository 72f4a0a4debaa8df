/** The train/validation split of scripts/split-data.py: both split trees are recreated, then every
    non-empty class folder of data/all is shuffled and its first fifth (at least one image) copied to
    val/<class>, the rest to train/<class>. Randomness enters as the draws of `random.shuffle`. */
module SplitData {
  import opened Wrappers
  import Seqs

  /** An entry of data/all: a class folder with the names of the files in it, or a plain file. */
  datatype Entry = Folder(name: string, images: seq<string>) | PlainFile(name: string)

  /** `max(1, int(n * 0.2))`, which for a count of images equals `max(1, n // 5)`. */
  function ValCount(n: nat): (k: nat)
    ensures k >= 1 && (n >= 1 ==> k <= n)
    ensures n < 5 ==> k == 1
    ensures n >= 5 ==> 5 * k <= n < 5 * (k + 1)
  {
    Max(1, n / 5)
  }

  function Swap<T>(s: seq<T>, i: nat, j: nat): (r: seq<T>)
    requires i < |s| && j < |s|
    ensures |r| == |s|
  {
    s[i := s[j]][j := s[i]]
  }

  lemma SwapPermutes<T>(s: seq<T>, i: nat, j: nat)
    requires i < |s| && j < |s|
    ensures multiset(Swap(s, i, j)) == multiset(s)
  {
  }

  /** Exchanges two cells of the array. */
  method SwapAt<T>(a: array<T>, i: nat, j: nat)
    requires i < a.Length && j < a.Length
    modifies a
    ensures a[..] == Swap(old(a[..]), i, j)
  {
    a[i], a[j] := a[j], a[i];
  }

  /** The k-th random draw; a missing draw reads as 0. */
  function Draw(draws: seq<nat>, k: nat): nat
  {
    if k < |draws| then draws[k] else 0
  }

  /** The rest of `random.shuffle` from position `i` down to 1, the k-th draw choosing
      `randbelow(i + 1)` as `draw % (i + 1)`. */
  function ShuffleFrom<T>(s: seq<T>, draws: seq<nat>, i: nat, k: nat): (r: seq<T>)
    requires i < |s|
    ensures |r| == |s|
    decreases i
  {
    if i == 0 then s else ShuffleFrom(Swap(s, i, Draw(draws, k) % (i + 1)), draws, i - 1, k + 1)
  }

  /** The order `random.shuffle` leaves a list in for the given draws. */
  function Shuffled<T>(s: seq<T>, draws: seq<nat>): (r: seq<T>)
    ensures |r| == |s|
  {
    if |s| == 0 then s else ShuffleFrom(s, draws, |s| - 1, 0)
  }

  lemma {:induction false} ShuffleFromPermutes<T>(s: seq<T>, draws: seq<nat>, i: nat, k: nat)
    requires i < |s|
    ensures multiset(ShuffleFrom(s, draws, i, k)) == multiset(s)
    decreases i
  {
    if i > 0 {
      SwapPermutes(s, i, Draw(draws, k) % (i + 1));
      ShuffleFromPermutes(Swap(s, i, Draw(draws, k) % (i + 1)), draws, i - 1, k + 1);
    }
  }

  /** Shuffling only reorders: whatever the draws, the same names occur as often as before. */
  lemma ShuffledIsPermutation<T>(s: seq<T>, draws: seq<nat>)
    ensures multiset(Shuffled(s, draws)) == multiset(s)
  {
    if |s| > 0 {
      ShuffleFromPermutes(s, draws, |s| - 1, 0);
    }
  }

  /** `random.shuffle(images)`, in place. */
  method Shuffle<T>(a: array<T>, draws: seq<nat>)
    modifies a
    ensures a[..] == Shuffled(old(a[..]), draws)
  {
    if a.Length == 0 {
      return;
    }
    var i, k := a.Length - 1, 0;
    while i > 0
      invariant 0 <= i < a.Length
      invariant ShuffleFrom(a[..], draws, i, k) == Shuffled(old(a[..]), draws)
    {
      var j := Draw(draws, k) % (i + 1);
      SwapAt(a, i, j);
      i, k := i - 1, k + 1;
    }
  }

  /** The images a class folder sends to val/ and to train/. */
  function ValPart(images: seq<string>, draws: seq<nat>): (r: seq<string>)
    requires |images| >= 1
    ensures |r| == ValCount(|images|)
  {
    Shuffled(images, draws)[..ValCount(|images|)]
  }

  function TrainPart(images: seq<string>, draws: seq<nat>): (r: seq<string>)
    requires |images| >= 1
    ensures |r| == |images| - ValCount(|images|)
  {
    Shuffled(images, draws)[ValCount(|images|)..]
  }

  lemma NoDuplicatesCount(s: seq<string>, x: string)
    requires Seqs.NoDuplicates(s)
    ensures multiset(s)[x] <= 1
  {
    if s != [] {
      assert s == [s[0]] + s[1..];
      NoDuplicatesCount(s[1..], x);
      if s[0] == x {
        assert x !in s[1..];
      }
    }
  }

  /** The split of one folder: at least one and at most all images go to val; val followed by train is
      the shuffled list; together they hold each image exactly as often as the folder; and when the
      folder's names are distinct (as in any directory) no image goes to both. */
  lemma SplitPartitions(images: seq<string>, draws: seq<nat>)
    requires |images| >= 1
    ensures 1 <= |ValPart(images, draws)| <= |images|
    ensures ValPart(images, draws) + TrainPart(images, draws) == Shuffled(images, draws)
    ensures multiset(ValPart(images, draws)) + multiset(TrainPart(images, draws)) == multiset(images)
    ensures Seqs.NoDuplicates(images) ==>
      forall x :: x in ValPart(images, draws) ==> x !in TrainPart(images, draws)
  {
    var sh := Shuffled(images, draws);
    assert sh == ValPart(images, draws) + TrainPart(images, draws);
    ShuffledIsPermutation(images, draws);
    if Seqs.NoDuplicates(images) {
      forall x | x in ValPart(images, draws) ensures x !in TrainPart(images, draws) {
        NoDuplicatesCount(images, x);
      }
    }
  }

  predicate IsClass(e: Entry)
  {
    e.Folder? && e.images != []
  }

  function DrawsFor(draws: seq<seq<nat>>, i: nat): seq<nat>
  {
    if i < |draws| then draws[i] else []
  }

  function Existing(m: map<string, seq<string>>, c: string): seq<string>
  {
    if c in m then m[c] else []
  }

  /** The train/ tree after the first `n` entries have been processed: class folder name to the files
      copied into it, in copy order. */
  function TrainAfter(entries: seq<Entry>, draws: seq<seq<nat>>, n: nat): map<string, seq<string>>
    requires n <= |entries|
  {
    if n == 0 then map[]
    else
      var m := TrainAfter(entries, draws, n - 1);
      var e := entries[n - 1];
      if IsClass(e) then m[e.name := Existing(m, e.name) + TrainPart(e.images, DrawsFor(draws, n - 1))] else m
  }

  function ValAfter(entries: seq<Entry>, draws: seq<seq<nat>>, n: nat): map<string, seq<string>>
    requires n <= |entries|
  {
    if n == 0 then map[]
    else
      var m := ValAfter(entries, draws, n - 1);
      var e := entries[n - 1];
      if IsClass(e) then m[e.name := Existing(m, e.name) + ValPart(e.images, DrawsFor(draws, n - 1))] else m
  }

  /** Entry names of a directory listing are distinct. */
  predicate DistinctNames(entries: seq<Entry>)
  {
    forall i, j :: 0 <= i < j < |entries| ==> entries[i].name != entries[j].name
  }

  /** After the first `n` entries, exactly the non-empty class folders among them have a directory in
      both trees, each holding exactly that folder's two parts. */
  lemma TreesAfter(entries: seq<Entry>, draws: seq<seq<nat>>, n: nat)
    requires n <= |entries| && DistinctNames(entries)
    ensures forall c :: c in TrainAfter(entries, draws, n) <==> exists i :: 0 <= i < n && IsClass(entries[i]) && entries[i].name == c
    ensures TrainAfter(entries, draws, n).Keys == ValAfter(entries, draws, n).Keys
    ensures forall i :: 0 <= i < n && IsClass(entries[i]) ==>
      && TrainAfter(entries, draws, n)[entries[i].name] == TrainPart(entries[i].images, DrawsFor(draws, i))
      && ValAfter(entries, draws, n)[entries[i].name] == ValPart(entries[i].images, DrawsFor(draws, i))
  {
    TrainKeys(entries, draws, n);
    ValKeys(entries, draws, n);
    TrainContents(entries, draws, n);
    ValContents(entries, draws, n);
  }

  /** A class folder's name is written at most once, so nothing that comes later is already present. */
  predicate NamedBefore(entries: seq<Entry>, n: nat, c: string)
    requires n <= |entries|
  {
    exists i :: 0 <= i < n && IsClass(entries[i]) && entries[i].name == c
  }

  lemma {:induction false} TrainKeys(entries: seq<Entry>, draws: seq<seq<nat>>, n: nat)
    requires n <= |entries|
    ensures forall c :: c in TrainAfter(entries, draws, n) <==> NamedBefore(entries, n, c)
  {
    if n > 0 {
      TrainKeys(entries, draws, n - 1);
      forall c ensures c in TrainAfter(entries, draws, n) <==> NamedBefore(entries, n, c) {
        if NamedBefore(entries, n - 1, c) {
          var i :| 0 <= i < n - 1 && IsClass(entries[i]) && entries[i].name == c;
          assert 0 <= i < n;
        }
        if NamedBefore(entries, n, c) && !(IsClass(entries[n - 1]) && entries[n - 1].name == c) {
          var i :| 0 <= i < n && IsClass(entries[i]) && entries[i].name == c;
          assert i < n - 1;
        }
      }
    }
  }

  lemma {:induction false} ValKeys(entries: seq<Entry>, draws: seq<seq<nat>>, n: nat)
    requires n <= |entries|
    ensures forall c :: c in ValAfter(entries, draws, n) <==> NamedBefore(entries, n, c)
  {
    if n > 0 {
      ValKeys(entries, draws, n - 1);
      forall c ensures c in ValAfter(entries, draws, n) <==> NamedBefore(entries, n, c) {
        if NamedBefore(entries, n - 1, c) {
          var i :| 0 <= i < n - 1 && IsClass(entries[i]) && entries[i].name == c;
          assert 0 <= i < n;
        }
        if NamedBefore(entries, n, c) && !(IsClass(entries[n - 1]) && entries[n - 1].name == c) {
          var i :| 0 <= i < n && IsClass(entries[i]) && entries[i].name == c;
          assert i < n - 1;
        }
      }
    }
  }

  lemma {:induction false} TrainContents(entries: seq<Entry>, draws: seq<seq<nat>>, n: nat)
    requires n <= |entries| && DistinctNames(entries)
    ensures forall i :: 0 <= i < n && IsClass(entries[i]) ==>
      entries[i].name in TrainAfter(entries, draws, n) &&
      TrainAfter(entries, draws, n)[entries[i].name] == TrainPart(entries[i].images, DrawsFor(draws, i))
  {
    if n > 0 {
      TrainContents(entries, draws, n - 1);
      TrainKeys(entries, draws, n - 1);
      var e := entries[n - 1];
      var before := TrainAfter(entries, draws, n - 1);
      if IsClass(e) {
        assert !NamedBefore(entries, n - 1, e.name);
        assert Existing(before, e.name) == [];
        assert [] + TrainPart(e.images, DrawsFor(draws, n - 1)) == TrainPart(e.images, DrawsFor(draws, n - 1));
        assert TrainAfter(entries, draws, n) == before[e.name := TrainPart(e.images, DrawsFor(draws, n - 1))];
      } else {
        assert TrainAfter(entries, draws, n) == before;
      }
      forall i | 0 <= i < n - 1 && IsClass(entries[i])
        ensures entries[i].name in TrainAfter(entries, draws, n)
        ensures TrainAfter(entries, draws, n)[entries[i].name] == TrainPart(entries[i].images, DrawsFor(draws, i))
      {
        assert entries[i].name != e.name;
      }
    }
  }

  lemma {:induction false} ValContents(entries: seq<Entry>, draws: seq<seq<nat>>, n: nat)
    requires n <= |entries| && DistinctNames(entries)
    ensures forall i :: 0 <= i < n && IsClass(entries[i]) ==>
      entries[i].name in ValAfter(entries, draws, n) &&
      ValAfter(entries, draws, n)[entries[i].name] == ValPart(entries[i].images, DrawsFor(draws, i))
  {
    if n > 0 {
      ValContents(entries, draws, n - 1);
      ValKeys(entries, draws, n - 1);
      var e := entries[n - 1];
      var before := ValAfter(entries, draws, n - 1);
      if IsClass(e) {
        assert !NamedBefore(entries, n - 1, e.name);
        assert Existing(before, e.name) == [];
        assert [] + ValPart(e.images, DrawsFor(draws, n - 1)) == ValPart(e.images, DrawsFor(draws, n - 1));
        assert ValAfter(entries, draws, n) == before[e.name := ValPart(e.images, DrawsFor(draws, n - 1))];
      } else {
        assert ValAfter(entries, draws, n) == before;
      }
      forall i | 0 <= i < n - 1 && IsClass(entries[i])
        ensures entries[i].name in ValAfter(entries, draws, n)
        ensures ValAfter(entries, draws, n)[entries[i].name] == ValPart(entries[i].images, DrawsFor(draws, i))
      {
        assert entries[i].name != e.name;
      }
    }
  }

  /** After the whole run, each non-empty class folder has a directory in both trees; together they
      hold each of its images exactly as often as the folder does, val holds at least one, and with
      distinct file names no image is in both. */
  lemma EveryImageCopiedOnce(entries: seq<Entry>, draws: seq<seq<nat>>, i: nat)
    requires DistinctNames(entries) && i < |entries| && IsClass(entries[i])
    ensures var c := entries[i].name;
      var train := TrainAfter(entries, draws, |entries|);
      var val := ValAfter(entries, draws, |entries|);
      && c in train && c in val
      && multiset(train[c]) + multiset(val[c]) == multiset(entries[i].images)
      && 1 <= |val[c]|
      && (Seqs.NoDuplicates(entries[i].images) ==> forall x :: x in val[c] ==> x !in train[c])
  {
    TreesAfter(entries, draws, |entries|);
    SplitPartitions(entries[i].images, DrawsFor(draws, i));
  }

  /** The two split trees, data/train and data/val. */
  class Splitter {
    var train: map<string, seq<string>>
    var val: map<string, seq<string>>

    constructor ()
    {
    }

    /** The whole script: recreate both trees, split each class folder, then report the number of
        entries of data/all (which counts plain files as well as folders). */
    method Run(entries: seq<Entry>, draws: seq<seq<nat>>) returns (reported: nat)
      modifies this
      ensures train == TrainAfter(entries, draws, |entries|)
      ensures val == ValAfter(entries, draws, |entries|)
      ensures reported == |entries|
    {
      train, val := map[], map[];
      var i := 0;
      while i < |entries|
        invariant 0 <= i <= |entries|
        invariant train == TrainAfter(entries, draws, i) && val == ValAfter(entries, draws, i)
      {
        var e := entries[i];
        if e.Folder? && e.images != [] {
          SplitClass(e, DrawsFor(draws, i));
        }
        i := i + 1;
      }
      reported := |entries|;
    }

    /** One class folder: shuffle its listing, create its directory in both trees, copy the train
        part, then the val part. */
    method SplitClass(e: Entry, draws: seq<nat>)
      requires IsClass(e)
      modifies this
      ensures train == old(train)[e.name := Existing(old(train), e.name) + TrainPart(e.images, draws)]
      ensures val == old(val)[e.name := Existing(old(val), e.name) + ValPart(e.images, draws)]
    {
      var a := new string[|e.images|](k requires 0 <= k < |e.images| => e.images[k]);
      assert a[..] == e.images;
      Shuffle(a, draws);
      var images := a[..];
      var vc := ValCount(|images|);
      var trainImages, valImages := images[vc..], images[..vc];
      train := train[e.name := Existing(train, e.name)];
      val := val[e.name := Existing(val, e.name)];
      CopyAll(true, e.name, trainImages);
      CopyAll(false, e.name, valImages);
    }

    function Tree(toTrain: bool): map<string, seq<string>>
      reads this
    {
      if toTrain then train else val
    }

    /** One copy loop: each image is copied into directory `c` of one tree under its own name. */
    method CopyAll(toTrain: bool, c: string, images: seq<string>)
      requires c in Tree(toTrain)
      modifies this
      ensures Tree(toTrain) == old(Tree(toTrain))[c := old(Tree(toTrain))[c] + images]
      ensures Tree(!toTrain) == old(Tree(!toTrain))
    {
      ghost var start := Tree(toTrain);
      assert images[..0] == [] && start[c] + [] == start[c];
      assert start[c := start[c] + images[..0]] == start;
      var k := 0;
      while k < |images|
        invariant 0 <= k <= |images|
        invariant Tree(toTrain) == start[c := start[c] + images[..k]]
        invariant Tree(!toTrain) == old(Tree(!toTrain))
      {
        assert images[..k + 1] == images[..k] + [images[k]];
        assert start[c] + images[..k + 1] == (start[c] + images[..k]) + [images[k]];
        if toTrain {
          train := train[c := train[c] + [images[k]]];
        } else {
          val := val[c := val[c] + [images[k]]];
        }
        k := k + 1;
      }
      assert images[..k] == images;
    }
  }
}
