// Packaging the plugin: file order, names and line ends.
module PluginPackage {
  import opened Common
  import opened Crc32
  import opened CodeUnits
  import opened ZipPackage

  /** A path below the plugin's root and the text of the file, both in UTF-16 code units. */
  datatype File = File(path: seq<nat>, text: seq<nat>)

  const SLASH: nat := 0x2f
  const BACKSLASH: nat := 0x5c
  const CR: nat := 13
  const LF: nat := 10
  const FOLDER := "labelmod-connector/"

  // ---------------------------------------------------------------- order

  ghost predicate Sorted(s: seq<File>)
  {
    forall i, j :: 0 <= i < j < |s| ==> Before(s[i].path, s[j].path)
  }

  ghost predicate Distinct(s: seq<File>)
  {
    forall i, j :: 0 <= i < j < |s| ==> s[i].path != s[j].path
  }

  function Insert(f: File, s: seq<File>): seq<File>
  {
    if s == [] || Before(f.path, s[0].path) then [f] + s else [s[0]] + Insert(f, s[1..])
  }

  function Sort(s: seq<File>): seq<File>
  {
    if s == [] then [] else Insert(s[0], Sort(s[1..]))
  }

  lemma {:induction false} InsertKeeps(f: File, s: seq<File>)
    ensures multiset(Insert(f, s)) == multiset(s) + multiset{f}
  {
    if s != [] && !Before(f.path, s[0].path) {
      InsertKeeps(f, s[1..]);
      assert s == [s[0]] + s[1..];
    }
  }

  lemma {:induction false} SortKeeps(s: seq<File>)
    ensures multiset(Sort(s)) == multiset(s)
  {
    if s != [] {
      SortKeeps(s[1..]);
      InsertKeeps(s[0], Sort(s[1..]));
      assert s == [s[0]] + s[1..];
    }
  }

  lemma {:induction false} SameElements(s: seq<File>, t: seq<File>, f: File)
    requires multiset(s) == multiset(t)
    ensures f in s <==> f in t
  {
    assert f in s <==> f in multiset(s);
    assert f in t <==> f in multiset(t);
  }

  lemma {:induction false} InInsert(f: File, s: seq<File>, g: File)
    requires g in Insert(f, s)
    ensures g == f || g in s
  {
    InsertKeeps(f, s);
    assert g in multiset(Insert(f, s));
    assert g in multiset(s) + multiset{f};
  }

  lemma {:induction false} InsertSorted(f: File, s: seq<File>)
    requires Sorted(s) && forall g :: g in s ==> g.path != f.path
    ensures Sorted(Insert(f, s))
  {
    if s == [] {
    } else if Before(f.path, s[0].path) {
      forall g | g in s ensures Before(f.path, g.path) {
        var k :| 0 <= k < |s| && s[k] == g;
        if k > 0 { Transitive(f.path, s[0].path, g.path); }
      }
    } else {
      assert s[0] in s;
      Total(f.path, s[0].path);
      InsertSorted(f, s[1..]);
      forall g | g in Insert(f, s[1..]) ensures Before(s[0].path, g.path) {
        InInsert(f, s[1..], g);
        if g != f {
          var k :| 0 <= k < |s[1..]| && s[1..][k] == g;
          assert g == s[k + 1];
        }
      }
    }
  }

  lemma {:induction false} SortSorted(s: seq<File>)
    requires Distinct(s)
    ensures Sorted(Sort(s))
  {
    if s != [] {
      var rest := s[1..];
      SortSorted(rest);
      SortKeeps(rest);
      forall g | g in Sort(rest) ensures g.path != s[0].path {
        SameElements(rest, Sort(rest), g);
        var k :| 0 <= k < |rest| && rest[k] == g;
        assert g == s[k + 1];
      }
      InsertSorted(s[0], Sort(rest));
    }
  }

  lemma {:induction false} SameHead(s: seq<File>, t: seq<File>)
    requires Sorted(s) && Sorted(t) && multiset(s) == multiset(t) && s != [] && t != []
    ensures s[0] == t[0]
  {
    SameElements(s, t, s[0]);
    SameElements(s, t, t[0]);
    var k :| 0 <= k < |t| && t[k] == s[0];
    var m :| 0 <= m < |s| && s[m] == t[0];
    if k > 0 && m > 0 {
      Transitive(s[0].path, s[m].path, t[k].path);
      Irreflexive(s[0].path);
    }
  }

  lemma {:induction false} SameLength(s: seq<File>, t: seq<File>)
    requires multiset(s) == multiset(t)
    ensures |s| == |t|
  {
    assert |multiset(s)| == |s| && |multiset(t)| == |t|;
  }

  /** Only one arrangement of the same files is in order. */
  lemma {:induction false} SortedUnique(s: seq<File>, t: seq<File>)
    requires Sorted(s) && Sorted(t) && multiset(s) == multiset(t)
    ensures s == t
  {
    SameLength(s, t);
    if s != [] {
      SameHead(s, t);
      assert s == [s[0]] + s[1..] && t == [t[0]] + t[1..];
      assert multiset(s[1..]) == multiset(s) - multiset{s[0]};
      assert multiset(t[1..]) == multiset(t) - multiset{t[0]};
      SortedUnique(s[1..], t[1..]);
    }
  }

  // ---------------------------------------------------------------- names and line ends

  /** `replaceAll` of one code unit by another. */
  function Replace(s: seq<nat>, from: nat, to: nat): (r: seq<nat>)
    ensures |r| == |s| && forall i :: 0 <= i < |s| ==> r[i] == if s[i] == from then to else s[i]
  {
    seq(|s|, i requires 0 <= i < |s| => if s[i] == from then to else s[i])
  }

  /** `replaceAll("\r\n", "\n")` */
  function Normalize(t: seq<nat>): seq<nat>
  {
    if |t| >= 2 && t[0] == CR && t[1] == LF then [LF] + Normalize(t[2..])
    else if t == [] then []
    else [t[0]] + Normalize(t[1..])
  }

  /** What a checkout with Windows line ends makes of a stored text. */
  function ToCrLf(t: seq<nat>): seq<nat>
  {
    if t == [] then [] else (if t[0] == LF then [CR, LF] else [t[0]]) + ToCrLf(t[1..])
  }

  predicate HasCrLf(t: seq<nat>)
  {
    exists i :: 0 <= i && i + 1 < |t| && t[i] == CR && t[i + 1] == LF
  }

  lemma {:induction false} CheckoutUndone(t: seq<nat>)
    ensures Normalize(ToCrLf(t)) == t
  {
    if t != [] {
      CheckoutUndone(t[1..]);
      var c, rest := ToCrLf(t), ToCrLf(t[1..]);
      if t[0] == LF {
        assert c[2..] == rest;
      } else {
        assert c[1..] == rest;
        assert |c| >= 2 ==> c[1] != LF || t[0] != CR by {
          if |c| >= 2 { assert c[1] == rest[0]; }
        }
      }
    }
  }

  lemma {:induction false} NormalizeLength(t: seq<nat>)
    ensures |Normalize(t)| <= |t| && (HasCrLf(t) ==> |Normalize(t)| < |t|)
  {
    if |t| >= 2 && t[0] == CR && t[1] == LF {
      NormalizeLength(t[2..]);
    } else if t != [] {
      NormalizeLength(t[1..]);
      if i :| 0 <= i && i + 1 < |t| && t[i] == CR && t[i + 1] == LF {
        assert t[1..][i - 1] == CR && t[1..][i - 1 + 1] == LF;
      }
    }
  }

  lemma {:induction false} CrLfInTail(t: seq<nat>)
    requires t != [] && HasCrLf(t[1..])
    ensures HasCrLf(t)
  {
    var i :| 0 <= i && i + 1 < |t[1..]| && t[1..][i] == CR && t[1..][i + 1] == LF;
    assert t[i + 1] == CR && t[i + 1 + 1] == LF;
  }

  lemma {:induction false} CrLfAtStart(t: seq<nat>)
    requires |t| >= 2 && t[0] == CR && t[1] == LF
    ensures HasCrLf(t)
  {
    assert t[0] == CR && t[0 + 1] == LF;
  }

  /** A text checked out as stored is packed unchanged exactly when it holds no CR LF pair. */
  lemma {:induction false} NormalizeFixedIff(t: seq<nat>)
    ensures Normalize(t) == t <==> !HasCrLf(t)
  {
    hide HasCrLf;
    NormalizeLength(t);
    if t == [] {
      NothingInEmpty();
    } else if |t| >= 2 && t[0] == CR && t[1] == LF {
      CrLfAtStart(t);
    } else {
      NormalizeFixedIff(t[1..]);
      if HasCrLf(t[1..]) { CrLfInTail(t); }
      assert t == [t[0]] + t[1..];
    }
  }

  lemma {:induction false} NothingInEmpty()
    ensures !HasCrLf([])
  {}

  // ---------------------------------------------------------------- the package

  /** `encode` is the UTF-8 encoder. */
  function EntryOf(f: File, encode: seq<nat> -> bytes): Entry
  {
    Entry(encode(Units(FOLDER) + Replace(f.path, BACKSLASH, SLASH)), encode(Normalize(f.text)))
  }

  function EntriesOf(files: seq<File>, encode: seq<nat> -> bytes): (r: seq<Entry>)
    ensures |r| == |files| && forall k :: 0 <= k < |files| ==> r[k] == EntryOf(files[k], encode)
  {
    seq(|files|, k requires 0 <= k < |files| => EntryOf(files[k], encode))
  }

  function Packed(files: seq<File>, encode: seq<nat> -> bytes): Result<bytes, Failure>
  {
    var entries := EntriesOf(Sort(files), encode);
    if Fits(entries) then Ok(Archive(entries)) else Err(OutOfRange)
  }

  method PackagePlugin(listed: seq<File>, encode: seq<nat> -> bytes) returns (r: Result<bytes, Failure>)
    ensures r == Packed(listed, encode)
  {
    hide *;
    var paths := Sort(listed);
    var entries := PrepareEntries(paths, encode);
    r := WriteArchive(entries);
    assert r == Packed(listed, encode) by { PackedIs(listed, encode); }
  }

  lemma {:induction false} PackedIs(files: seq<File>, encode: seq<nat> -> bytes)
    ensures Packed(files, encode) ==
      var entries := EntriesOf(Sort(files), encode);
      if Fits(entries) then Ok(Archive(entries)) else Err(OutOfRange)
  {
    hide Fits, Archive, Sort, EntriesOf;
  }

  method PrepareEntries(paths: seq<File>, encode: seq<nat> -> bytes) returns (entries: seq<Entry>)
    ensures entries == EntriesOf(paths, encode)
  {
    hide Units, Replace, Normalize;
    entries := [];
    for k := 0 to |paths|
      invariant entries == EntriesOf(paths, encode)[..k]
    {
      var name := encode(Units(FOLDER) + Replace(paths[k].path, BACKSLASH, SLASH));
      var bytes := encode(Normalize(paths[k].text));
      assert Entry(name, bytes) == EntriesOf(paths, encode)[k];
      entries := entries + [Entry(name, bytes)];
    }
  }

  /** The order in which the system lists the directory does not reach the archive. */
  lemma {:induction false} ListingDoesNotMatter(listed: seq<File>, other: seq<File>, encode: seq<nat> -> bytes)
    requires Distinct(listed) && Distinct(other) && multiset(listed) == multiset(other)
    ensures Packed(listed, encode) == Packed(other, encode)
  {
    hide Packed;
    SortSorted(listed);
    SortSorted(other);
    SortKeeps(listed);
    SortKeeps(other);
    SortedUnique(Sort(listed), Sort(other));
    SameSortSamePackage(listed, other, encode);
  }

  lemma {:induction false} SameSortSamePackage(listed: seq<File>, other: seq<File>, encode: seq<nat> -> bytes)
    requires Sort(listed) == Sort(other)
    ensures Packed(listed, encode) == Packed(other, encode)
  {}

  // ---------------------------------------------------------------- line ends and the archive

  function Checkout(files: seq<File>): (r: seq<File>)
    ensures |r| == |files|
    ensures forall k :: 0 <= k < |files| ==> r[k] == File(files[k].path, ToCrLf(files[k].text))
  {
    seq(|files|, k requires 0 <= k < |files| => File(files[k].path, ToCrLf(files[k].text)))
  }

  lemma {:induction false} InsertCheckout(f: File, s: seq<File>)
    ensures Insert(File(f.path, ToCrLf(f.text)), Checkout(s)) == Checkout(Insert(f, s))
  {
    hide ToCrLf;
    if s != [] && !Before(f.path, s[0].path) {
      InsertCheckout(f, s[1..]);
      assert Checkout(s)[1..] == Checkout(s[1..]);
    }
  }

  lemma {:induction false} SortCheckout(s: seq<File>)
    ensures Sort(Checkout(s)) == Checkout(Sort(s))
  {
    hide ToCrLf;
    if s != [] {
      assert Checkout(s)[1..] == Checkout(s[1..]);
      SortCheckout(s[1..]);
      InsertCheckout(s[0], Sort(s[1..]));
    }
  }

  /** What must hold of the encoder for the archive to tell the two texts of a file apart. */
  ghost predicate TextsApart(files: seq<File>, encode: seq<nat> -> bytes)
  {
    forall k :: 0 <= k < |files| ==>
      (encode(Normalize(files[k].text)) == encode(files[k].text) ==> Normalize(files[k].text) == files[k].text)
  }

  lemma {:induction false} CheckoutEntry(f: File, encode: seq<nat> -> bytes)
    ensures EntryOf(File(f.path, ToCrLf(f.text)), encode)
         == Entry(EntryOf(f, encode).name, encode(f.text))
    ensures !HasCrLf(f.text) ==> EntryOf(f, encode).data == encode(f.text)
    ensures EntryOf(f, encode).data == encode(Normalize(f.text))
  {
    hide ToCrLf, Normalize, HasCrLf, Replace, Units;
    CheckoutUndone(f.text);
    NormalizeFixedIff(f.text);
  }

  /**
   * Checkouts with and without Windows line ends give one archive exactly when no stored text holds a CR LF pair:
   * the first keeps such a pair, the second loses it.
   */
  lemma {:induction false} LineEndsMatterIff(stored: seq<File>, encode: seq<nat> -> bytes)
    requires TextsApart(stored, encode) && Packed(stored, encode).Ok? && Packed(Checkout(stored), encode).Ok?
    ensures Packed(Checkout(stored), encode) == Packed(stored, encode)
       <==> forall k :: 0 <= k < |stored| ==> !HasCrLf(stored[k].text)
  {
    hide *;
    var s := Sort(stored);
    SortCheckout(stored);
    PackedIs(stored, encode);
    PackedIs(Checkout(stored), encode);
    if forall k :: 0 <= k < |stored| ==> !HasCrLf(stored[k].text) {
      SameEntries(stored, s, encode);
    }
    if Packed(Checkout(stored), encode) == Packed(stored, encode) {
      ArchiveInjective(EntriesOf(Checkout(s), encode), EntriesOf(s, encode));
      forall k | 0 <= k < |stored| ensures !HasCrLf(stored[k].text) {
        NoPairKept(stored, s, encode, k);
      }
    }
  }

  lemma {:induction false} SortedHolds(stored: seq<File>, f: File)
    ensures f in stored <==> f in Sort(stored)
  {
    SortKeeps(stored);
    SameElements(stored, Sort(stored), f);
  }

  lemma {:induction false} SameEntries(stored: seq<File>, s: seq<File>, encode: seq<nat> -> bytes)
    requires s == Sort(stored) && forall k :: 0 <= k < |stored| ==> !HasCrLf(stored[k].text)
    ensures EntriesOf(Checkout(s), encode) == EntriesOf(s, encode)
  {
    hide HasCrLf, EntryOf, Sort, ToCrLf, Normalize;
    forall k | 0 <= k < |s| ensures EntryOf(Checkout(s)[k], encode) == EntryOf(s[k], encode) {
      SortedHolds(stored, s[k]);
      assert s[k] in s;
      CheckoutEntry(s[k], encode);
    }
  }

  lemma {:induction false} NoPairKept(stored: seq<File>, s: seq<File>, encode: seq<nat> -> bytes, k: nat)
    requires s == Sort(stored) && TextsApart(stored, encode) && k < |stored|
    requires EntriesOf(Checkout(s), encode) == EntriesOf(s, encode)
    ensures !HasCrLf(stored[k].text)
  {
    hide HasCrLf, EntryOf, Sort, ToCrLf, Normalize;
    var f := stored[k];
    assert f in stored;
    SortedHolds(stored, f);
    var m :| 0 <= m < |s| && s[m] == f;
    CheckoutEntry(f, encode);
    assert EntriesOf(Checkout(s), encode)[m] == EntryOf(File(f.path, ToCrLf(f.text)), encode);
    assert EntriesOf(s, encode)[m] == EntryOf(f, encode);
    NormalizeFixedIff(f.text);
  }

  // ---------------------------------------------------------------- path separators and the archive

  predicate Portable(files: seq<File>)
  {
    forall k :: 0 <= k < |files| ==> BACKSLASH !in files[k].path
  }

  function OnWindows(f: File): File
  {
    File(Replace(f.path, SLASH, BACKSLASH), f.text)
  }

  function AllOnWindows(files: seq<File>): (r: seq<File>)
    ensures |r| == |files| && forall k :: 0 <= k < |files| ==> r[k] == OnWindows(files[k])
  {
    seq(|files|, k requires 0 <= k < |files| => OnWindows(files[k]))
  }

  /** Where the paths part, one goes into a folder and the other has a digit, a capital or a sign up to `[`. */
  predicate Crossing(a: seq<nat>, b: seq<nat>)
  {
    if a == [] || b == [] then false
    else if a[0] == b[0] then Crossing(a[1..], b[1..])
    else (a[0] == SLASH && SLASH < b[0] < BACKSLASH) || (b[0] == SLASH && SLASH < a[0] < BACKSLASH)
  }

  lemma {:induction false} OrderKeptIff(a: seq<nat>, b: seq<nat>)
    requires a != b && BACKSLASH !in a && BACKSLASH !in b
    ensures (Before(Replace(a, SLASH, BACKSLASH), Replace(b, SLASH, BACKSLASH)) <==> Before(a, b)) <==> !Crossing(a, b)
  {
    if a != [] && b != [] {
      var x, y := Replace(a, SLASH, BACKSLASH), Replace(b, SLASH, BACKSLASH);
      assert a[0] in a && b[0] in b;
      if a[0] == b[0] {
        assert a == [a[0]] + a[1..] && b == [b[0]] + b[1..];
        OrderKeptIff(a[1..], b[1..]);
        assert x[1..] == Replace(a[1..], SLASH, BACKSLASH) && y[1..] == Replace(b[1..], SLASH, BACKSLASH);
      }
    }
  }

  ghost predicate NoCrossing(files: seq<File>)
  {
    forall i, j :: 0 <= i < |files| && 0 <= j < |files| ==> !Crossing(files[i].path, files[j].path)
  }

  lemma {:induction false} InsertOnWindows(f: File, s: seq<File>)
    requires BACKSLASH !in f.path && Portable(s)
    requires forall g :: g in s ==> g.path != f.path && !Crossing(f.path, g.path)
    ensures Insert(OnWindows(f), AllOnWindows(s)) == AllOnWindows(Insert(f, s))
  {
    hide Replace, Crossing;
    if s != [] {
      assert s[0] in s;
      OrderKeptIff(f.path, s[0].path);
      if !Before(f.path, s[0].path) {
        InsertOnWindows(f, s[1..]);
        assert AllOnWindows(s)[1..] == AllOnWindows(s[1..]);
      }
    }
  }

  lemma {:induction false} SortOnWindows(s: seq<File>)
    requires Portable(s) && Distinct(s) && NoCrossing(s)
    ensures Sort(AllOnWindows(s)) == AllOnWindows(Sort(s))
  {
    hide Replace, Crossing;
    if s != [] {
      var rest := s[1..];
      assert AllOnWindows(s)[1..] == AllOnWindows(rest);
      SortOnWindows(rest);
      SortKeeps(rest);
      forall g | g in Sort(rest)
        ensures BACKSLASH !in g.path && g.path != s[0].path && !Crossing(s[0].path, g.path)
      {
        SameElements(rest, Sort(rest), g);
        var k :| 0 <= k < |rest| && rest[k] == g;
        assert g == s[k + 1];
      }
      InsertOnWindows(s[0], Sort(rest));
    }
  }

  lemma {:induction false} NameOnWindows(f: File, encode: seq<nat> -> bytes)
    requires BACKSLASH !in f.path
    ensures Replace(f.path, BACKSLASH, SLASH) == f.path
    ensures EntryOf(OnWindows(f), encode) == EntryOf(f, encode)
  {
    hide Normalize;
    assert forall i :: 0 <= i < |f.path| ==> f.path[i] in f.path;
    assert Replace(OnWindows(f).path, BACKSLASH, SLASH) == f.path;
    assert Replace(f.path, BACKSLASH, SLASH) == f.path;
  }

  lemma {:induction false} EntriesOnWindows(files: seq<File>, encode: seq<nat> -> bytes)
    requires Portable(files)
    ensures EntriesOf(AllOnWindows(files), encode) == EntriesOf(files, encode)
  {
    hide EntryOf, OnWindows;
    forall k | 0 <= k < |files| ensures EntryOf(OnWindows(files[k]), encode) == EntryOf(files[k], encode) {
      NameOnWindows(files[k], encode);
    }
  }

  ghost predicate NamesApart(files: seq<File>, encode: seq<nat> -> bytes)
  {
    forall i, j :: 0 <= i < |files| && 0 <= j < |files| ==>
      (EntryOf(files[i], encode).name == EntryOf(files[j], encode).name ==> files[i].path == files[j].path)
  }

  lemma {:induction false} NotCrossingItself(a: seq<nat>)
    ensures !Crossing(a, a)
  {
    if a != [] { NotCrossingItself(a[1..]); }
  }

  lemma {:induction false} CrossingSymmetric(a: seq<nat>, b: seq<nat>)
    ensures Crossing(a, b) == Crossing(b, a)
  {
    if a != [] && b != [] { CrossingSymmetric(a[1..], b[1..]); }
  }

  /** When both systems write one archive, they have put the files in one order. */
  lemma {:induction false} SameOrder(files: seq<File>, encode: seq<nat> -> bytes, k: nat)
    requires Portable(files) && NamesApart(files, encode) && k < |Sort(files)|
    requires EntriesOf(Sort(AllOnWindows(files)), encode) == EntriesOf(Sort(files), encode)
    ensures k < |Sort(AllOnWindows(files))|
    ensures Sort(AllOnWindows(files))[k].path == Replace(Sort(files)[k].path, SLASH, BACKSLASH)
  {
    hide EntryOf, Sort, Replace;
    var s, t := Sort(files), Sort(AllOnWindows(files));
    assert |EntriesOf(s, encode)| == |s| && |EntriesOf(t, encode)| == |t|;
    assert s[k] in s && t[k] in t;
    SortedHolds(files, s[k]);
    SortedHolds(AllOnWindows(files), t[k]);
    var i :| 0 <= i < |files| && files[i] == s[k];
    var j :| 0 <= j < |files| && AllOnWindows(files)[j] == t[k];
    NameOnWindows(files[j], encode);
    assert EntriesOf(s, encode)[k] == EntryOf(s[k], encode) && EntriesOf(t, encode)[k] == EntryOf(t[k], encode);
  }

  lemma {:induction false} OrderedPairNotCrossing(files: seq<File>, encode: seq<nat> -> bytes, p: nat, q: nat)
    requires Portable(files) && Distinct(files) && NamesApart(files, encode) && p < q < |Sort(files)|
    requires EntriesOf(Sort(AllOnWindows(files)), encode) == EntriesOf(Sort(files), encode)
    ensures !Crossing(Sort(files)[p].path, Sort(files)[q].path)
  {
    hide EntryOf, Sort, Replace, Crossing, EntriesOf, NamesApart;
    var s, t := Sort(files), Sort(AllOnWindows(files));
    SortSorted(files);
    SortSorted(AllOnWindows(files));
    SameOrder(files, encode, p);
    SameOrder(files, encode, q);
    assert s[p] in s && s[q] in s;
    SortedHolds(files, s[p]);
    SortedHolds(files, s[q]);
    Irreflexive(s[p].path);
    OrderKeptIff(s[p].path, s[q].path);
  }

  lemma {:induction false} PairNotCrossing(files: seq<File>, encode: seq<nat> -> bytes, i: nat, j: nat)
    requires Portable(files) && Distinct(files) && NamesApart(files, encode) && i < |files| && j < |files|
    requires EntriesOf(Sort(AllOnWindows(files)), encode) == EntriesOf(Sort(files), encode)
    ensures !Crossing(files[i].path, files[j].path)
  {
    hide EntryOf, Sort, Replace, Crossing, EntriesOf, NamesApart;
    var s := Sort(files);
    assert files[i] in files && files[j] in files;
    SortedHolds(files, files[i]);
    SortedHolds(files, files[j]);
    var p :| 0 <= p < |s| && s[p] == files[i];
    var q :| 0 <= q < |s| && s[q] == files[j];
    CrossingSymmetric(s[p].path, s[q].path);
    if p < q {
      OrderedPairNotCrossing(files, encode, p, q);
    } else if q < p {
      OrderedPairNotCrossing(files, encode, q, p);
    } else {
      NotCrossingItself(s[p].path);
    }
  }

  /** The two systems write one archive exactly when no folder meets a file whose name parts from it unluckily. */
  lemma {:induction false} SeparatorsMatterIff(files: seq<File>, encode: seq<nat> -> bytes)
    requires Portable(files) && Distinct(files) && NamesApart(files, encode)
    requires Packed(files, encode).Ok? && Packed(AllOnWindows(files), encode).Ok?
    ensures Packed(AllOnWindows(files), encode) == Packed(files, encode) <==> NoCrossing(files)
  {
    hide *;
    PackedIs(files, encode);
    PackedIs(AllOnWindows(files), encode);
    if NoCrossing(files) {
      SortOnWindows(files);
      SortPortable(files);
      EntriesOnWindows(Sort(files), encode);
    }
    if Packed(AllOnWindows(files), encode) == Packed(files, encode) {
      ArchiveInjective(EntriesOf(Sort(AllOnWindows(files)), encode), EntriesOf(Sort(files), encode));
      AllPairsNotCrossing(files, encode);
    }
  }

  lemma {:induction false} SortPortable(files: seq<File>)
    requires Portable(files)
    ensures Portable(Sort(files))
  {
    hide Sort;
    var s := Sort(files);
    forall k | 0 <= k < |s| ensures BACKSLASH !in s[k].path {
      assert s[k] in s;
      SortedHolds(files, s[k]);
    }
  }

  lemma {:induction false} AllPairsNotCrossing(files: seq<File>, encode: seq<nat> -> bytes)
    requires Portable(files) && Distinct(files) && NamesApart(files, encode)
    requires EntriesOf(Sort(AllOnWindows(files)), encode) == EntriesOf(Sort(files), encode)
    ensures NoCrossing(files)
  {
    hide Crossing, Sort, EntriesOf, AllOnWindows, Portable, NamesApart;
    forall i, j | 0 <= i < |files| && 0 <= j < |files| ensures !Crossing(files[i].path, files[j].path) {
      PairNotCrossing(files, encode, i, j);
    }
  }

  /** Such a pair: `a/x` comes before `aB` where folders end in a slash, and after it where they end in a backslash. */
  lemma {:induction false} CrossingPair()
    ensures Crossing(Units("a/x"), Units("aB"))
    ensures Before(Units("a/x"), Units("aB"))
    ensures Before(Replace(Units("aB"), SLASH, BACKSLASH), Replace(Units("a/x"), SLASH, BACKSLASH))
  {
    var a, b := Units("a/x"), Units("aB");
    assert a[1..][0] == SLASH && b[1..][0] == 0x42;
    assert Replace(a, SLASH, BACKSLASH)[1..][0] == BACKSLASH && Replace(b, SLASH, BACKSLASH)[1..][0] == 0x42;
  }

  // ---------------------------------------------------------------- in plain text

  /** A file is stored below its folder under its path with slashes, with its line ends normalised. */
  lemma {:induction false} EntryIs(f: File, encode: seq<nat> -> bytes)
    ensures EntryOf(f, encode).data == encode(Normalize(f.text))
    ensures EntryOf(f, encode).name ==
      encode(Units("labelmod-connector/") + seq(|f.path|, i requires 0 <= i < |f.path| => if f.path[i] == 92 then 47 else f.path[i]))
  {
    assert Replace(f.path, BACKSLASH, SLASH)
        == seq(|f.path|, i requires 0 <= i < |f.path| => if f.path[i] == 92 then 47 else f.path[i]);
  }

  /** Line ends: a CR LF pair becomes a LF, and nothing else changes. */
  lemma {:induction false} NormalizeIs(t: seq<nat>)
    ensures |t| >= 2 && t[0] == 13 && t[1] == 10 ==> Normalize(t) == [10] + Normalize(t[2..])
    ensures t != [] && !(|t| >= 2 && t[0] == 13 && t[1] == 10) ==> Normalize(t) == [t[0]] + Normalize(t[1..])
    ensures Normalize([]) == []
  {}
}
