/**
 * The job-source record and the pure list transforms that the source-list
 * editor applies to its draft: filter-by-id (delete) and map-by-id (update
 * one field).  Appending a record is plain sequence concatenation.
 */
module JobSources {

  /** One external job-search link.  Ids are kept as strings. */
  datatype JobSource = JobSource(id: string, name: string, url: string) {

    /** The record with one editable field replaced (`{ ...source, [field]: value }`). */
    function With(field: Field, value: string): (r: JobSource)
      ensures r.id == id
      ensures field == Name ==> r.name == value && r.url == url
      ensures field == Url ==> r.url == value && r.name == name
    {
      match field
      case Name => JobSource(id, value, url)
      case Url => JobSource(id, name, value)
    }
  }

  /** The two fields an editor input can change. */
  datatype Field = Name | Url

  /** The set of ids occurring in a list. */
  function Ids(s: seq<JobSource>): set<string>
  {
    set i | 0 <= i < |s| :: s[i].id
  }

  /** Ids are pairwise distinct. */
  ghost predicate UniqueIds(s: seq<JobSource>)
  {
    forall i, j :: 0 <= i < j < |s| ==> s[i].id != s[j].id
  }

  /** `editingSources.filter(source => source.id !== id)`. */
  function Without(s: seq<JobSource>, id: string): (r: seq<JobSource>)
    ensures |r| <= |s|
    ensures forall x :: x in r <==> x in s && x.id != id
  {
    if s == [] then []
    else (if s[0].id == id then [] else [s[0]]) + Without(s[1..], id)
  }

  /** `editingSources.map(source => source.id === id ? { ...source, [field]: value } : source)`. */
  function Updated(s: seq<JobSource>, id: string, field: Field, value: string): (r: seq<JobSource>)
    ensures |r| == |s|
    ensures forall i :: 0 <= i < |s| ==> r[i].id == s[i].id
    ensures forall i :: 0 <= i < |s| && s[i].id != id ==> r[i] == s[i]
    ensures forall i :: 0 <= i < |s| && s[i].id == id ==> r[i] == s[i].With(field, value)
  {
    seq(|s|, i requires 0 <= i < |s| => if s[i].id == id then s[i].With(field, value) else s[i])
  }

  // ---------------------------------------------------------------------------
  // Delete

  /** Filtering distributes over concatenation: the kept records stay in their relative order. */
  lemma {:induction false} WithoutConcat(a: seq<JobSource>, b: seq<JobSource>, id: string)
    ensures Without(a + b, id) == Without(a, id) + Without(b, id)
  {
    if a == [] {
      assert a + b == b;
    } else {
      assert (a + b)[1..] == a[1..] + b;
      WithoutConcat(a[1..], b, id);
    }
  }

  /** Each record whose id differs is kept exactly as often as it occurred; the deleted id is gone. */
  lemma {:induction false} WithoutCounts(s: seq<JobSource>, id: string, x: JobSource)
    ensures multiset(Without(s, id))[x] == if x.id == id then 0 else multiset(s)[x]
  {
    if s != [] {
      WithoutCounts(s[1..], id, x);
      var h := if s[0].id == id then [] else [s[0]];
      assert Without(s, id) == h + Without(s[1..], id);
      assert multiset(Without(s, id)) == multiset(h) + multiset(Without(s[1..], id));
      assert s == [s[0]] + s[1..];
      assert multiset(s) == multiset([s[0]]) + multiset(s[1..]);
    }
  }

  /** Deleting an id that does not occur changes nothing. */
  lemma {:induction false} WithoutAbsent(s: seq<JobSource>, id: string)
    requires id !in Ids(s)
    ensures Without(s, id) == s
  {
    if s != [] {
      assert s[0].id in Ids(s);
      assert Ids(s[1..]) <= Ids(s) by {
        forall k | k in Ids(s[1..]) ensures k in Ids(s) {
          var i :| 0 <= i < |s[1..]| && s[1..][i].id == k;
          assert s[i + 1].id == k;
        }
      }
      WithoutAbsent(s[1..], id);
      assert s == [s[0]] + s[1..];
    }
  }

  /** The ids after a delete are the ids before, without the deleted one. */
  lemma WithoutIds(s: seq<JobSource>, id: string)
    ensures id !in Ids(Without(s, id))
    ensures Ids(Without(s, id)) == Ids(s) - {id}
  {
    var r := Without(s, id);
    forall k
      ensures k in Ids(r) <==> k in Ids(s) - {id}
    {
      InIds(r, k);
      InIds(s, k);
    }
  }

  /** An id is in the set exactly when some record carries it. */
  lemma InIds(s: seq<JobSource>, k: string)
    ensures k in Ids(s) <==> exists x :: x in s && x.id == k
  {
    if k in Ids(s) {
      var i :| 0 <= i < |s| && s[i].id == k;
      assert s[i] in s;
    }
    if exists x :: x in s && x.id == k {
      var x :| x in s && x.id == k;
      var i :| 0 <= i < |s| && s[i] == x;
      assert s[i].id in Ids(s);
    }
  }

  /** Deleting twice is deleting once. */
  lemma {:induction false} WithoutIdempotent(s: seq<JobSource>, id: string)
    ensures Without(Without(s, id), id) == Without(s, id)
  {
    WithoutIds(s, id);
    WithoutAbsent(Without(s, id), id);
  }

  /** Deleting keeps ids distinct. */
  lemma {:induction false} WithoutKeepsUnique(s: seq<JobSource>, id: string)
    requires UniqueIds(s)
    ensures UniqueIds(Without(s, id))
  {
    if s != [] {
      var tail := Without(s[1..], id);
      WithoutKeepsUnique(s[1..], id);
      WithoutIds(s[1..], id);
      if s[0].id != id {
        assert s[0].id !in Ids(s[1..]);
        var r := [s[0]] + tail;
        forall i, j | 0 <= i < j < |r| ensures r[i].id != r[j].id {
          if i == 0 {
            assert r[j] == tail[j - 1];
            assert r[j].id in Ids(tail);
          }
        }
      }
    }
  }

  // ---------------------------------------------------------------------------
  // Update

  /** Editing a field never changes the set of ids, so it keeps them distinct. */
  lemma UpdatedKeepsIds(s: seq<JobSource>, id: string, field: Field, value: string)
    ensures Ids(Updated(s, id, field, value)) == Ids(s)
    ensures UniqueIds(s) ==> UniqueIds(Updated(s, id, field, value))
  {
    var r := Updated(s, id, field, value);
    forall k | k in Ids(s) ensures k in Ids(r) {
      var i :| 0 <= i < |s| && s[i].id == k;
      assert r[i].id == k;
    }
  }

  /** Updating an id that does not occur changes nothing. */
  lemma UpdatedAbsent(s: seq<JobSource>, id: string, field: Field, value: string)
    requires id !in Ids(s)
    ensures Updated(s, id, field, value) == s
  {
    var r := Updated(s, id, field, value);
    forall i | 0 <= i < |s| ensures r[i] == s[i] {
      assert s[i].id in Ids(s);
    }
  }

  /** Repeating the same edit is the same as doing it once. */
  lemma UpdatedIdempotent(s: seq<JobSource>, id: string, field: Field, value: string)
    ensures Updated(Updated(s, id, field, value), id, field, value) == Updated(s, id, field, value)
  {
  }

  /** Edits to the two different fields commute. */
  lemma UpdatedCommute(s: seq<JobSource>, id: string, v: string, w: string)
    ensures Updated(Updated(s, id, Name, v), id, Url, w) == Updated(Updated(s, id, Url, w), id, Name, v)
  {
  }

  /** Deleting an edited record is the same as deleting it unedited. */
  lemma {:induction false} DeleteAfterUpdate(s: seq<JobSource>, id: string, field: Field, value: string)
    ensures Without(Updated(s, id, field, value), id) == Without(s, id)
  {
    if s != [] {
      var u := Updated(s, id, field, value);
      assert u[1..] == Updated(s[1..], id, field, value);
      DeleteAfterUpdate(s[1..], id, field, value);
    }
  }

  // ---------------------------------------------------------------------------
  // Add

  /** Appending keeps ids distinct exactly when the new id is fresh. */
  lemma AppendUnique(s: seq<JobSource>, x: JobSource)
    requires UniqueIds(s)
    ensures UniqueIds(s + [x]) <==> x.id !in Ids(s)
  {
    if x.id in Ids(s) {
      var i :| 0 <= i < |s| && s[i].id == x.id;
      assert (s + [x])[i].id == (s + [x])[|s|].id;
    }
  }
}
