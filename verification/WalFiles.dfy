// The log directory: one file per segment, and the sorted list of them.
module WalFiles {
  import opened Common
  import opened Bytes
  import opened WalSegment
  import opened WalLog

  type Files = map<nat, seq<Byte>>

  function Names(segments: seq<Segment>): set<nat> {
    set i | 0 <= i < |segments| :: segments[i].0
  }

  // The files of a directory, sorted by first sequence number.
  ghost predicate Lists(segments: seq<Segment>, files: Files) {
    && Ascending(segments) && Names(segments) == files.Keys
    && forall i :: 0 <= i < |segments| ==> segments[i].0 in files && files[segments[i].0] == segments[i].1
  }

  lemma NamesInit(segments: seq<Segment>, files: Files)
    requires Lists(segments, files) && segments != []
    ensures var n := |segments| - 1;
      && Lists(segments[..n], files - {segments[n].0})
      && forall f :: f in files ==> f <= segments[n].0
  {
    var n := |segments| - 1;
    var init, x := segments[..n], segments[n].0;
    forall f | f in files ensures f <= x {
      assert f in Names(segments);
    }
    forall f ensures f in Names(init) <==> f in Names(segments) && f != x {
      if f in Names(segments) && f != x {
        var i :| 0 <= i < |segments| && segments[i].0 == f;
        assert init[i].0 == f;
      }
    }
  }

  lemma HeadNamed(segments: seq<Segment>)
    ensures segments != [] ==> segments[0].0 in Names(segments)
  {
  }

  lemma {:induction false} ListsUnique(a: seq<Segment>, b: seq<Segment>, files: Files)
    requires Lists(a, files) && Lists(b, files)
    ensures a == b
    decreases |a|
  {
    if a == [] {
      HeadNamed(b);
    } else {
      assert a[|a| - 1].0 in Names(a);
      assert b != [];
      NamesInit(a, files);
      NamesInit(b, files);
      assert b[|b| - 1].0 in Names(b);
      assert a[|a| - 1] == b[|b| - 1];
      ListsUnique(a[..|a| - 1], b[..|b| - 1], files - {a[|a| - 1].0});
      assert a == a[..|a| - 1] + [a[|a| - 1]];
      assert b == b[..|b| - 1] + [b[|b| - 1]];
    }
  }

  class WalDirectory {
    var files: Files

    constructor ()
      ensures files == map[]
    {
      files := map[];
    }

    // Open for appending, creating the file if there is none.
    method OpenSegment(first: nat)
      modifies this
      ensures files == if first in old(files) then old(files) else old(files)[first := []]
    {
      if first !in files {
        files := files[first := []];
      }
    }

    method Write(first: nat, bytes: seq<Byte>)
      requires first in files
      modifies this
      ensures files == old(files)[first := old(files)[first] + bytes]
    {
      files := files[first := files[first] + bytes];
    }

    method SetLength(first: nat, size: nat)
      requires first in files && size <= |files[first]|
      modifies this
      ensures files == old(files)[first := old(files)[first][..size]]
    {
      files := files[first := files[first][..size]];
    }

    // The directory is read in any order and then sorted.
    method ListSegments() returns (segments: seq<Segment>)
      ensures Lists(segments, files)
    {
      segments := [];
      var left := files.Keys;
      while left != {}
        invariant left <= files.Keys && Lists(segments, files - left)
        decreases |left|
      {
        ghost var some := Pick(left);
        var f :| f in left;
        assert f !in Names(segments);
        segments := InsertSorted(segments, (f, files[f]), files - left);
        assert (files - left)[f := files[f]] == files - (left - {f});
        left := left - {f};
      }
      assert files - {} == files;
    }
  }

  method InsertSorted(segments: seq<Segment>, s: Segment, ghost files: Files) returns (r: seq<Segment>)
    requires Lists(segments, files) && s.0 !in files
    ensures Lists(r, files[s.0 := s.1])
  {
    var i := |segments|;
    while i > 0 && s.0 < segments[i - 1].0
      invariant 0 <= i <= |segments|
      invariant forall j :: i <= j < |segments| ==> s.0 < segments[j].0
    {
      i := i - 1;
    }
    forall j | 0 <= j < i ensures segments[j].0 < s.0 {
      assert segments[j].0 <= segments[i - 1].0;
      assert segments[i - 1].0 in files;
    }
    r := Inserted(segments, i, s);
    InsertedAscends(segments, i, s);
    InsertedNames(segments, i, s);
    InsertedFiles(segments, i, s, files);
  }

  function Inserted(segments: seq<Segment>, i: nat, s: Segment): (r: seq<Segment>)
    requires i <= |segments|
    ensures |r| == |segments| + 1
    ensures forall j :: 0 <= j < |r| ==> r[j] == if j < i then segments[j] else if j == i then s else segments[j - 1]
  {
    segments[..i] + [s] + segments[i..]
  }

  lemma InsertedAscends(segments: seq<Segment>, i: nat, s: Segment)
    requires Ascending(segments) && i <= |segments|
    requires forall j :: 0 <= j < i ==> segments[j].0 < s.0
    requires forall j :: i <= j < |segments| ==> s.0 < segments[j].0
    ensures Ascending(Inserted(segments, i, s))
  {
  }

  lemma InsertedNames(segments: seq<Segment>, i: nat, s: Segment)
    requires i <= |segments|
    ensures Names(Inserted(segments, i, s)) == Names(segments) + {s.0}
  {
    var r := Inserted(segments, i, s);
    forall f ensures f in Names(r) <==> f in Names(segments) || f == s.0 {
      if f == s.0 { assert r[i].0 == f; }
      if f in Names(segments) {
        var j :| 0 <= j < |segments| && segments[j].0 == f;
        assert r[if j < i then j else j + 1].0 == f;
      }
    }
  }

  lemma InsertedFiles(segments: seq<Segment>, i: nat, s: Segment, files: Files)
    requires Lists(segments, files) && s.0 !in files && i <= |segments|
    ensures var r := Inserted(segments, i, s); var files' := files[s.0 := s.1];
      forall j :: 0 <= j < |r| ==> r[j].0 in files' && files'[r[j].0] == r[j].1
  {
  }
}
