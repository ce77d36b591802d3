/** Replication through a store that holds nothing but named objects: what one
    node publishes there, and what it takes from there. */
module Bridge {
  import opened Records
  import opened Sets
  import opened Store
  import opened Exchange
  import opened Keys

  const BUNDLE_RECORDS: nat := 5000

  /** An object that opens and decodes, or one that does not: another mesh's, or
      corrupted. */
  datatype Blob = Bundle(records: seq<Record>) | Unreadable

  /** What an object's key says: an origin and a range of its sequences, or nothing
      that `parseKey` understands. Distinct ranges have distinct keys. */
  datatype Name = Range(span: Span) | Stray(key: Key)

  lemma RangesHaveTheirOwnKeys(a: Span, b: Span)
    requires 0 <= a.first <= INT64_MAX && 0 <= a.last <= INT64_MAX
    requires 0 <= b.first <= INT64_MAX && 0 <= b.last <= INT64_MAX
    ensures FormatKey(a) == FormatKey(b) <==> a == b
  {
    KeyRoundTrip(a);
    KeyRoundTrip(b);
  }

  /** A backend that lists one origin's objects in byte order lists its ranges in
      sequence order, as long as the padding suffices. */
  lemma ByteOrderIsSequenceOrder(a: Span, b: Span)
    requires a.origin == b.origin
    requires 0 <= a.first < 1_000_000_000_000 && 0 <= a.last < 1_000_000_000_000
    requires 0 <= b.first < 1_000_000_000_000 && 0 <= b.last < 1_000_000_000_000
    requires !Less(FormatKey(b), FormatKey(a))
    ensures !Precedes(b, a)
  {
    KeyOrder(b, a);
  }

  type Blobs = map<Name, Blob>

  /** The last sequence published for each first one. */
  type Ranges = map<int, int>

  ghost predicate InOrder(listing: seq<Name>) {
    forall i, j {:trigger listing[i], listing[j]} :: 0 <= i < j < |listing| ==>
      match (listing[i], listing[j])
      case (Range(a), Range(b)) => a.origin == b.origin ==> !Precedes(b, a)
      case _ => true
  }

  /** What `List` returns: every object's key, one origin's in sequence order. */
  ghost predicate Lists(listing: seq<Name>, objects: Blobs) {
    && (forall name :: name in listing <==> name in objects)
    && InOrder(listing)
  }

  // ---- Publishing ----

  function AddRange(out: Ranges, origin: Origin, name: Name): Ranges {
    match name
    case Stray(_) => out
    case Range(s) =>
      if s.origin == origin && (s.first !in out || s.last > out[s.first]) then out[s.first := s.last] else out
  }

  /** `listRanges`. */
  function RangesOf(listing: seq<Name>, origin: Origin): Ranges {
    if listing == [] then map[]
    else AddRange(RangesOf(listing[..|listing| - 1], origin), origin, listing[|listing| - 1])
  }

  /** A range is recorded only for an object that has it. */
  lemma {:induction false} RangeIsListed(listing: seq<Name>, origin: Origin, first: int)
    requires first in RangesOf(listing, origin)
    ensures Range(Span(origin, first, RangesOf(listing, origin)[first])) in listing
    decreases |listing|
  {
    var before, last := listing[..|listing| - 1], listing[|listing| - 1];
    var was, out := RangesOf(before, origin), RangesOf(listing, origin);
    assert forall name :: name in listing <==> name in before || name == last;
    if first in was && was[first] == out[first] {
      RangeIsListed(before, origin, first);
    }
  }

  /** A range is recorded with the furthest end any object has for it. */
  lemma {:induction false} RangesAreFurthest(listing: seq<Name>, s: Span)
    requires Range(s) in listing
    ensures var out := RangesOf(listing, s.origin); s.first in out && s.last <= out[s.first]
    decreases |listing|
  {
    var before, last := listing[..|listing| - 1], listing[|listing| - 1];
    assert forall name :: name in listing <==> name in before || name == last;
    if Range(s) in before {
      RangesAreFurthest(before, s);
    }
  }

  function RangeEnd(first: int, have: int): int {
    if first + BUNDLE_RECORDS - 1 <= have then first + BUNDLE_RECORDS - 1 else have
  }

  predicate Present(existing: Ranges, first: int, have: int) {
    first in existing && RangeEnd(first, have) <= existing[first]
  }

  datatype Publication = Publication(objects: Blobs, first: int, published: int, done: bool)

  function Put(objects: Blobs, origin: Origin, first: int, recs: seq<Record>): Blobs
    requires recs != []
  {
    objects[Range(Span(origin, first, recs[|recs| - 1].num)) := Bundle(recs)]
  }

  /** What one turn of the loop over ranges finds to do. */
  datatype Turn = Stop | Skip | Upload(records: seq<Record>)

  function NextTurn(t: Table, origin: Origin, have: int, existing: Ranges, first: int): (turn: Turn)
    ensures turn.Upload? ==> turn.records != []
  {
    if first > have then Stop
    else if Present(existing, first, have) then Skip
    else
      var recs := Since(t, origin, first - 1, BUNDLE_RECORDS);
      if recs == [] then Stop else Upload(recs)
  }

  function PublishRange(t: Table, origin: Origin, have: int, existing: Ranges, p: Publication): Publication {
    if p.done then p
    else
      match NextTurn(t, origin, have, existing, p.first)
      case Stop => p.(done := true)
      case Skip => p.(first := p.first + BUNDLE_RECORDS)
      case Upload(recs) =>
        Publication(Put(p.objects, origin, p.first, recs), p.first + BUNDLE_RECORDS, p.published + |recs|, false)
  }

  function Turns(t: Table, origin: Origin, have: int, existing: Ranges, objects: Blobs, n: nat): Publication {
    if n == 0 then Publication(objects, 1, 0, false)
    else PublishRange(t, origin, have, existing, Turns(t, origin, have, existing, objects, n - 1))
  }

  lemma NoTurns(t: Table, origin: Origin, have: int, existing: Ranges, objects: Blobs)
    ensures Turns(t, origin, have, existing, objects, 0) == Publication(objects, 1, 0, false)
  {}

  lemma NextTurnIs(t: Table, origin: Origin, have: int, existing: Ranges, objects: Blobs, n: nat)
    requires var p := Turns(t, origin, have, existing, objects, n); !p.done && p.first <= have
    ensures var p := Turns(t, origin, have, existing, objects, n);
            var recs := Since(t, origin, p.first - 1, BUNDLE_RECORDS);
            Turns(t, origin, have, existing, objects, n + 1) ==
              if Present(existing, p.first, have) then p.(first := p.first + BUNDLE_RECORDS)
              else if recs == [] then p.(done := true)
              else Publication(Put(p.objects, origin, p.first, recs), p.first + BUNDLE_RECORDS, p.published + |recs|, false)
  {}

  predicate Complete(have: int, p: Publication) {
    p.first > have || p.done
  }

  // ---- Fetching ----

  /** What one `Fetch` has done so far; `failed` once an append was refused. */
  datatype Haul = Haul(rows: Table, quarantine: seq<Record>, fetched: int, stored: int, forked: int, failed: bool)

  /** The object names records of another origin above the vector. */
  predicate Wanted(self: Origin, vector: map<Origin, int>, name: Name) {
    match name
    case Stray(_) => false
    case Range(s) => s.origin != self && Told(vector, s.origin) < s.last
  }

  predicate Opens(objects: Blobs, name: Name) {
    name in objects && objects[name].Bundle?
  }

  /** One turn of the loop over objects. */
  function FetchOne(objects: Blobs, self: Origin, vector: map<Origin, int>, h: Haul, name: Name): Haul {
    if h.failed || !Wanted(self, vector, name) || !Opens(objects, name) then h
    else
      var recs := objects[name].records;
      if exists r :: r in recs && !Addressed(r) then h.(failed := true)
      else
        var run := RemoteBatch(h.rows, h.quarantine, recs);
        Haul(run.rows, run.quarantine, h.fetched + |recs|, h.stored + run.tally.stored, h.forked + run.tally.forked, false)
  }

  function FetchAll(objects: Blobs, self: Origin, vector: map<Origin, int>, listing: seq<Name>, start: Haul): Haul {
    if listing == [] then start
    else FetchOne(objects, self, vector, FetchAll(objects, self, vector, listing[..|listing| - 1], start), listing[|listing| - 1])
  }

  function Nothing(t: Table, quarantine: seq<Record>): Haul {
    Haul(t, quarantine, 0, 0, 0, false)
  }

  // ---- The bridge at work ----

  class Backend {
    var objects: Blobs

    constructor ()
      ensures objects == map[]
    {
      objects := map[];
    }
  }

  class Bridge {
    const db: Archive
    const backend: Backend

    constructor (db: Archive, backend: Backend)
      ensures this.db == db && this.backend == backend
    {
      this.db := db;
      this.backend := backend;
    }

    method ListRanges(listing: seq<Name>) returns (out: Ranges)
      ensures out == RangesOf(listing, db.origin)
    {
      out := map[];
      for i := 0 to |listing|
        invariant out == RangesOf(listing[..i], db.origin)
      {
        assert listing[..i + 1][..i] == listing[..i];
        match listing[i]
        case Stray(_) =>
        case Range(s) =>
          if s.origin == db.origin && (s.first !in out || s.last > out[s.first]) {
            out := out[s.first := s.last];
          }
      }
      assert listing[..|listing|] == listing;
    }

    /** `Publish`. Any put may fail, which ends it there; without a failure it goes
        on until a turn finds nothing more to do. */
    method Publish(listing: seq<Name>) returns (ok: bool, published: int)
      modifies backend
      ensures var have := Watermark(db.rows, db.origin);
              exists n: nat ::
                var p := Turns(db.rows, db.origin, have, RangesOf(listing, db.origin), old(backend.objects), n);
                backend.objects == p.objects && published == p.published && (ok ==> Complete(have, p))
    {
      hide Turns, PublishRange, Present, Since, RangesOf, Put;
      var have := Watermark(db.rows, db.origin);
      published := 0;
      ghost var existing := RangesOf(listing, db.origin);
      ghost var n: nat := 0;
      ghost var before := backend.objects;
      var first := 1;
      var recs: seq<Record> := [];
      NoTurns(db.rows, db.origin, have, existing, before);
      if have == 0 {
        assert Complete(have, Turns(db.rows, db.origin, have, existing, before, 0));
        return true, 0;
      }
      var ranges := ListRanges(listing);
      while first <= have
        invariant Publication(backend.objects, first, published, false) == Turns(db.rows, db.origin, have, existing, before, n)
        decreases have - first
      {
        NextTurnIs(db.rows, db.origin, have, existing, before, n);
        if Present(ranges, first, have) {
          first, n := first + BUNDLE_RECORDS, n + 1;
          continue;
        }
        recs := Since(db.rows, db.origin, first - 1, BUNDLE_RECORDS);
        if recs == [] {
          n := n + 1;
          break;
        }
        var stored: bool := *;
        if !stored {
          return false, published;
        }
        backend.objects := Put(backend.objects, db.origin, first, recs);
        published := published + |recs|;
        first, n := first + BUNDLE_RECORDS, n + 1;
      }
      assert Complete(have, Turns(db.rows, db.origin, have, existing, before, n));
      ok := true;
    }

    /** `Fetch`. */
    method Fetch(listing: seq<Name>) returns (ok: bool, fetched: int, stored: int, forked: int)
      modifies db`rows, db`quarantine
      ensures var h := FetchAll(backend.objects, db.origin, Vector(old(db.rows), db.origin), listing,
                                Nothing(old(db.rows), old(db.quarantine)));
              Haul(db.rows, db.quarantine, fetched, stored, forked, !ok) == h
    {
      var vector := Vector(db.rows, db.origin);
      fetched, stored, forked := 0, 0, 0;
      for i := 0 to |listing|
        invariant Haul(db.rows, db.quarantine, fetched, stored, forked, false) ==
                    FetchAll(backend.objects, db.origin, vector, listing[..i], Nothing(old(db.rows), old(db.quarantine)))
      {
        assert listing[..i + 1][..i] == listing[..i];
        var name := listing[i];
        if !Wanted(db.origin, vector, name) {
          continue;
        }
        if !Opens(backend.objects, name) {
          continue;
        }
        var recs := backend.objects[name].records;
        var appended, res := db.AppendRemote(recs);
        if !appended {
          FetchStopped(backend.objects, db.origin, vector, listing, i + 1, Nothing(old(db.rows), old(db.quarantine)));
          return false, fetched, stored, forked;
        }
        fetched := fetched + |recs|;
        stored := stored + res.stored;
        forked := forked + res.forked;
      }
      assert listing[..|listing|] == listing;
      ok := true;
    }
  }

  /** Once an append was refused, nothing more is fetched. */
  lemma {:induction false} FetchStopped(objects: Blobs, self: Origin, vector: map<Origin, int>, listing: seq<Name>, n: nat, start: Haul)
    requires n <= |listing| && FetchAll(objects, self, vector, listing[..n], start).failed
    ensures FetchAll(objects, self, vector, listing, start) == FetchAll(objects, self, vector, listing[..n], start)
    decreases |listing|
  {
    if n < |listing| {
      assert listing[..|listing| - 1][..n] == listing[..n];
      FetchStopped(objects, self, vector, listing[..|listing| - 1], n, start);
    } else {
      assert listing[..n] == listing;
    }
  }
}
