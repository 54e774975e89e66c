/** An abstract directory tree in place of the filesystem, and the two pure
    steps the walk applies to a directory listing: splitting it into regular
    files and everything else, and sorting each group by lower-cased name. */
module Directories {
  import opened Values
  import opened Sheets
  import opened Ordering

  /** One entry of a listing. A regular file carries what opening it as a
      workbook yields (its sheet "Data Table", or nothing when that fails);
      a directory carries its own listing; anything else (a device, a broken
      link) is not a regular file and cannot be listed either. */
  datatype Entry =
    | File(name: string, content: Option<Sheet>)
    | Dir(name: string, entries: seq<Entry>)
    | Special(name: string)

  /** `os.path.isfile` of the entry's path. */
  predicate IsFile(e: Entry) {
    e.File?
  }

  /** The `files` list the partition loop builds: the regular files, in
      listing order. */
  function FilesOf(es: seq<Entry>): seq<Entry> {
    if es == [] then []
    else FilesOf(es[..|es| - 1]) + (if IsFile(es[|es| - 1]) then [es[|es| - 1]] else [])
  }

  /** The `dirs` list the partition loop builds: every other entry, in
      listing order. */
  function DirsOf(es: seq<Entry>): seq<Entry> {
    if es == [] then []
    else DirsOf(es[..|es| - 1]) + (if IsFile(es[|es| - 1]) then [] else [es[|es| - 1]])
  }

  /** An entry lands in `files` exactly when it is a listed regular file, and
      in `dirs` exactly when it is any other listed entry. */
  lemma {:induction false} PartitionMembers(es: seq<Entry>, e: Entry)
    ensures e in FilesOf(es) <==> e in es && IsFile(e)
    ensures e in DirsOf(es) <==> e in es && !IsFile(e)
  {
    if es != [] {
      var p, last := es[..|es| - 1], es[|es| - 1];
      PartitionMembers(p, e);
      assert e in es <==> e in p || e == last by {
        assert es == p + [last];
      }
    }
  }

  /** The partition loses and duplicates nothing: the two lists together hold
      exactly the entries of the listing. */
  lemma {:induction false} PartitionIsPermutation(es: seq<Entry>)
    ensures multiset(FilesOf(es)) + multiset(DirsOf(es)) == multiset(es)
  {
    if es != [] {
      var p, e := es[..|es| - 1], es[|es| - 1];
      PartitionIsPermutation(p);
      assert es == p + [e];
      assert multiset(es) == multiset(p) + multiset{e};
    }
  }

  /** Entries in non-decreasing order of lower-cased name. */
  predicate SortedByName(s: seq<Entry>) {
    forall i, j :: 0 <= i < j < |s| ==> LowerLe(s[i].name, s[j].name)
  }

  /** `x` placed into a list after every leading entry whose key is not
      above its own, so that among equal keys the earlier entries stay first. */
  function Insert(x: Entry, s: seq<Entry>): seq<Entry> {
    if s == [] then [x]
    else if LowerLe(s[0].name, x.name) then [s[0]] + Insert(x, s[1..])
    else [x] + s
  }

  /** Inserting adds exactly `x`. */
  lemma {:induction false} InsertPermutation(x: Entry, s: seq<Entry>)
    ensures multiset(Insert(x, s)) == multiset(s) + multiset{x}
  {
    if s != [] && LowerLe(s[0].name, x.name) {
      InsertPermutation(x, s[1..]);
      assert s == [s[0]] + s[1..];
    }
  }

  /** After inserting, the list holds `x` and what it held before. */
  lemma {:induction false} InsertMembers(x: Entry, s: seq<Entry>, e: Entry)
    ensures e in Insert(x, s) <==> e == x || e in s
  {
    if s != [] && LowerLe(s[0].name, x.name) {
      InsertMembers(x, s[1..], e);
      assert e in s <==> e == s[0] || e in s[1..];
    }
  }

  /** Inserting into a sorted list keeps it sorted. */
  lemma {:induction false} InsertSorted(x: Entry, s: seq<Entry>)
    requires SortedByName(s)
    ensures SortedByName(Insert(x, s))
  {
    if s == [] {
    } else if LowerLe(s[0].name, x.name) {
      var t := Insert(x, s[1..]);
      assert SortedByName(s[1..]);
      InsertSorted(x, s[1..]);
      forall j | 0 <= j < |t| ensures LowerLe(s[0].name, t[j].name) {
        InsertMembers(x, s[1..], t[j]);
        if t[j] != x {
          var k :| 0 <= k < |s[1..]| && s[1..][k] == t[j];
          assert s[k + 1] == t[j];
        }
      }
      assert Insert(x, s) == [s[0]] + t;
    } else {
      LexLeTotal(Lower(s[0].name), Lower(x.name));
      forall j | 0 <= j < |s| ensures LowerLe(x.name, s[j].name) {
        if j > 0 {
          LexLeTransitive(Lower(x.name), Lower(s[0].name), Lower(s[j].name));
        }
      }
    }
  }

  /** `list.sort(key=str.lower)`: each entry, from first to last, inserted
      into the sorted list of the ones before it. */
  function SortByName(s: seq<Entry>): seq<Entry> {
    if s == [] then [] else Insert(s[|s| - 1], SortByName(s[..|s| - 1]))
  }

  /** The sort orders the entries by lower-cased name. */
  lemma {:induction false} SortByNameSorted(s: seq<Entry>)
    ensures SortedByName(SortByName(s))
  {
    if s != [] {
      SortByNameSorted(s[..|s| - 1]);
      InsertSorted(s[|s| - 1], SortByName(s[..|s| - 1]));
    }
  }

  /** The sort loses and adds nothing. */
  lemma {:induction false} SortByNamePermutation(s: seq<Entry>)
    ensures multiset(SortByName(s)) == multiset(s)
  {
    if s != [] {
      var init, last := s[..|s| - 1], s[|s| - 1];
      SortByNamePermutation(init);
      InsertPermutation(last, SortByName(init));
      assert s == init + [last];
      assert multiset(s) == multiset(init) + multiset{last};
    }
  }

  /** A sorted list holds every entry and nothing else. */
  lemma SortByNameMembers(s: seq<Entry>, e: Entry)
    ensures e in SortByName(s) <==> e in s
  {
    SortByNamePermutation(s);
    assert e in SortByName(s) <==> e in multiset(SortByName(s));
  }
}
