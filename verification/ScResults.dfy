/**
 Smart-contract results, their logs, and the union of result lists that the transaction processor
 forms (process/logsevents/logsMerger.go and getScResultsUnion in process/transactionProcessor.go).

 Go walks a map in an unspecified order, so every list made from a map is taken in an arbitrary order
 here, and what is proved holds for all of them.
 */
module ScResults {

  import opened Basics

  /** `rest` stands for the fields of an event that are only ever copied. */
  datatype Event = Event(identifier: string, data: string, rest: string)

  datatype ApiLog = ApiLog(address: string, events: seq<Event>)

  /** `body` stands for the fields of a result that are only ever copied. */
  datatype Scr = Scr(hash: string, sender: string, receiver: string, logs: Option<ApiLog>, body: string)

  /** The marshalled-and-hashed key of an event; no two events need have different ones. */
  type EventHash = Event -> string

  // ----- What a list of results says -----

  function Hashes(scrs: seq<Scr>): set<string> {
    set scr | scr in scrs :: scr.hash
  }

  predicate DistinctHashes(scrs: seq<Scr>) {
    forall i, j :: 0 <= i < j < |scrs| ==> scrs[i].hash != scrs[j].hash
  }

  ghost predicate Holds(hash: EventHash, log: Option<ApiLog>, key: string) {
    log.Some? && exists e :: e in log.value.events && hash(e) == key
  }

  /** Some occurrence of result `h` comes with a log, empty or not. */
  ghost predicate Logged(scrs: seq<Scr>, h: string) {
    exists scr :: scr in scrs && scr.hash == h && scr.logs.Some?
  }

  /** Some occurrence of result `h` comes with an event of this key. */
  ghost predicate Reported(hash: EventHash, scrs: seq<Scr>, h: string, key: string) {
    exists scr :: scr in scrs && scr.hash == h && Holds(hash, scr.logs, key)
  }

  /** Same results, each with the same set of event keys. */
  ghost predicate SameMeaning(hash: EventHash, a: seq<Scr>, b: seq<Scr>) {
    && Hashes(a) == Hashes(b)
    && (forall h :: Logged(a, h) <==> Logged(b, h))
    && (forall h, key :: Reported(hash, a, h, key) <==> Reported(hash, b, h, key))
  }

  /** The last occurrence of a hash. */
  function Last(scrs: seq<Scr>, h: string): (scr: Scr)
    requires h in Hashes(scrs)
    ensures scr in scrs && scr.hash == h
  {
    var n := |scrs| - 1;
    if scrs[n].hash == h then scrs[n]
    else
      assert forall scr :: scr in scrs ==> scr == scrs[n] || scr in scrs[..n];
      Last(scrs[..n], h)
  }

  /** The address on the first log that comes with a hash. */
  ghost function FirstLogAddress(scrs: seq<Scr>, h: string): string
    requires Logged(scrs, h)
  {
    var init, last := scrs[..|scrs| - 1], scrs[|scrs| - 1];
    assert forall scr :: scr in scrs ==> scr == last || scr in init;
    if Logged(init, h) then FirstLogAddress(init, h) else last.logs.value.address
  }

  /** The union promised of `out`: each hash once, every event of every occurrence and no other under the
      address of the first log, and all other fields from the last occurrence. */
  ghost predicate IsUnion(hash: EventHash, scrs: seq<Scr>, out: seq<Scr>) {
    && DistinctHashes(out)
    && SameMeaning(hash, scrs, out)
    && forall scr :: scr in out ==> FieldsFrom(scr, scrs)
  }

  ghost predicate FieldsFrom(scr: Scr, scrs: seq<Scr>) {
    && scr.hash in Hashes(scrs)
    && scr.(logs := None) == Last(scrs, scr.hash).(logs := None)
    && (scr.logs.Some? ==> Logged(scrs, scr.hash) && scr.logs.value.address == FirstLogAddress(scrs, scr.hash))
  }

  // ----- The union is a semilattice -----

  lemma SameMeaningConcat(hash: EventHash, a: seq<Scr>, a': seq<Scr>, b: seq<Scr>, b': seq<Scr>)
    requires SameMeaning(hash, a, a') && SameMeaning(hash, b, b')
    ensures SameMeaning(hash, a + b, a' + b')
  {
    ConcatMeaning(hash, a, b);
    ConcatMeaning(hash, a', b');
  }

  lemma ConcatMeaning(hash: EventHash, a: seq<Scr>, b: seq<Scr>)
    ensures Hashes(a + b) == Hashes(a) + Hashes(b)
    ensures forall h :: Logged(a + b, h) <==> Logged(a, h) || Logged(b, h)
    ensures forall h, key :: Reported(hash, a + b, h, key) <==> Reported(hash, a, h, key) || Reported(hash, b, h, key)
  {
    assert forall scr :: scr in a + b <==> scr in a || scr in b;
  }

  /** The laws of a semilattice, up to event keys, for whatever lists the unions are given as: grouping and
      order do not matter, and neither does uniting a list with itself. */
  lemma UnionIsASemilattice(hash: EventHash, a: seq<Scr>, b: seq<Scr>, c: seq<Scr>,
                            ab: seq<Scr>, ab_c: seq<Scr>, bc: seq<Scr>, a_bc: seq<Scr>, ba: seq<Scr>, aa: seq<Scr>)
    requires IsUnion(hash, a + b, ab) && IsUnion(hash, ab + c, ab_c)
    requires IsUnion(hash, b + c, bc) && IsUnion(hash, a + bc, a_bc)
    requires IsUnion(hash, b + a, ba) && IsUnion(hash, a + a, aa)
    ensures SameMeaning(hash, ab_c, a_bc)
    ensures SameMeaning(hash, ab, ba)
    ensures SameMeaning(hash, aa, a)
  {
    SameMeaningConcat(hash, a + b, ab, c, c);
    SameMeaningConcat(hash, a, a, b + c, bc);
    assert (a + b) + c == a + (b + c);
    ConcatMeaning(hash, a, b);
    ConcatMeaning(hash, b, a);
    ConcatMeaning(hash, a, a);
  }

  /** The events logged for a result. */
  ghost function EventsOf(scrs: seq<Scr>, h: string): iset<Event> {
    iset scr, e | scr in scrs && scr.hash == h && scr.logs.Some? && e in scr.logs.value.events :: e
  }

  /** When no two events share a key, lists that mean the same log the same events. */
  lemma SameEvents(hash: EventHash, a: seq<Scr>, b: seq<Scr>, h: string)
    requires forall e, e' :: hash(e) == hash(e') ==> e == e'
    requires SameMeaning(hash, a, b)
    ensures EventsOf(a, h) == EventsOf(b, h)
  {
    EventsIncluded(hash, a, b, h);
    EventsIncluded(hash, b, a, h);
  }

  lemma EventsIncluded(hash: EventHash, a: seq<Scr>, b: seq<Scr>, h: string)
    requires forall e, e' :: hash(e) == hash(e') ==> e == e'
    requires SameMeaning(hash, a, b)
    ensures EventsOf(a, h) <= EventsOf(b, h)
  {
    forall e | e in EventsOf(a, h) ensures e in EventsOf(b, h) {
      assert Reported(hash, a, h, hash(e));
      assert Reported(hash, b, h, hash(e));
    }
  }

  // ----- Merging logs -----

  /** Every event of the map is filed under its own key. */
  ghost predicate WellKeyed(hash: EventHash, m: map<string, Event>) {
    forall k :: k in m ==> hash(m[k]) == k
  }

  method MergeEvents(hash: EventHash, merged: map<string, Event>, log: ApiLog) returns (merged': map<string, Event>)
    requires WellKeyed(hash, merged)
    ensures WellKeyed(hash, merged')
    ensures forall k :: k in merged' <==> k in merged || Holds(hash, Some(log), k)
  {
    merged' := merged;
    for i := 0 to |log.events|
      invariant WellKeyed(hash, merged')
      invariant forall k :: k in merged' <==> k in merged || exists j :: 0 <= j < i && hash(log.events[j]) == k
    {
      merged' := merged'[hash(log.events[i]) := log.events[i]];
    }
  }

  method EventsMapToSlice(hash: EventHash, m: map<string, Event>) returns (events: seq<Event>)
    requires WellKeyed(hash, m)
    ensures |events| == |m|
    ensures forall k :: k in m <==> Holds(hash, Some(ApiLog("", events)), k)
    ensures forall e :: e in events ==> hash(e) in m && m[hash(e)] == e
  {
    events := [];
    var pending := m.Keys;
    while pending != {}
      invariant pending <= m.Keys
      invariant |events| + |pending| == |m|
      invariant forall k :: k in m && k !in pending ==> m[k] in events
      invariant forall e :: e in events ==> hash(e) in m && hash(e) !in pending && m[hash(e)] == e
    {
      var k :| k in pending;
      events := events + [m[k]];
      pending := pending - {k};
    }
    assert forall k :: k in m ==> m[k] in events && hash(m[k]) == k;
  }

  method MergeLogEvents(hash: EventHash, source: Option<ApiLog>, destination: Option<ApiLog>)
    returns (merged: Option<ApiLog>)
    ensures merged.Some? <==> source.Some? || destination.Some?
    ensures forall k :: Holds(hash, merged, k) <==> Holds(hash, source, k) || Holds(hash, destination, k)
    ensures source.None? ==> merged == destination
    ensures destination.None? ==> merged == source
    ensures source.Some? ==> merged.value.address == source.value.address
  {
    if source.None? {
      return destination;
    }
    if destination.None? {
      return source;
    }
    var mergedEvents := MergeEvents(hash, map[], source.value);
    mergedEvents := MergeEvents(hash, mergedEvents, destination.value);
    var events := EventsMapToSlice(hash, mergedEvents);
    merged := Some(ApiLog(source.value.address, events));
    assert forall k :: Holds(hash, merged, k) <==> Holds(hash, Some(ApiLog("", events)), k);
  }

  // ----- The union -----

  /** The map built from the results seen so far. */
  ghost predicate Summarises(hash: EventHash, found: map<string, Scr>, scrs: seq<Scr>) {
    && found.Keys == Hashes(scrs)
    && forall h :: h in found ==> Summary(hash, found[h], scrs, h)
  }

  ghost predicate Summary(hash: EventHash, scr: Scr, scrs: seq<Scr>, h: string) {
    && scr.hash == h
    && FieldsFrom(scr, scrs)
    && (scr.logs.Some? <==> Logged(scrs, h))
    && forall k :: Holds(hash, scr.logs, k) <==> Reported(hash, scrs, h, k)
  }

  /** `merged` is the log that joins the one found so far, if any, with the next one. */
  ghost predicate Joins(hash: EventHash, found: map<string, Scr>, next: Scr, merged: Option<ApiLog>) {
    if next.hash !in found then merged == next.logs
    else
      var soFar := found[next.hash].logs;
      && (merged.Some? <==> soFar.Some? || next.logs.Some?)
      && (merged.Some? ==> merged.value.address == if soFar.Some? then soFar.value.address else next.logs.value.address)
      && forall k :: Holds(hash, merged, k) <==> Holds(hash, soFar, k) || Holds(hash, next.logs, k)
  }

  lemma SummaryStays(hash: EventHash, scr: Scr, scrs: seq<Scr>, next: Scr)
    requires Summary(hash, scr, scrs, scr.hash) && scr.hash != next.hash
    ensures Summary(hash, scr, scrs + [next], scr.hash)
  {
    assert (scrs + [next])[..|scrs|] == scrs;
    ConcatMeaning(hash, scrs, [next]);
  }

  lemma SummaryGrows(hash: EventHash, found: map<string, Scr>, scrs: seq<Scr>, next: Scr, merged: Option<ApiLog>)
    requires Summarises(hash, found, scrs) && Joins(hash, found, next, merged)
    ensures Summary(hash, next.(logs := merged), scrs + [next], next.hash)
  {
    var scrs', h := scrs + [next], next.hash;
    assert scrs'[..|scrs|] == scrs;
    ConcatMeaning(hash, scrs, [next]);
    assert Hashes([next]) == {h};
    assert Logged([next], h) <==> next.logs.Some?;
    assert forall k :: Reported(hash, [next], h, k) <==> Holds(hash, next.logs, k);
    if h in found {
      assert Summary(hash, found[h], scrs, h);
    } else {
      assert forall k :: !Reported(hash, scrs, h, k);
    }
  }

  lemma SummariesGrow(hash: EventHash, found: map<string, Scr>, scrs: seq<Scr>, next: Scr, merged: Option<ApiLog>)
    requires Summarises(hash, found, scrs) && Joins(hash, found, next, merged)
    ensures Summarises(hash, found[next.hash := next.(logs := merged)], scrs + [next])
  {
    ConcatMeaning(hash, scrs, [next]);
    SummaryGrows(hash, found, scrs, next, merged);
    forall h | h in found && h != next.hash ensures Summary(hash, found[h], scrs + [next], h) {
      SummaryStays(hash, found[h], scrs, next);
    }
  }

  method GetScResultsUnion(hash: EventHash, scrs: seq<Scr>) returns (out: seq<Scr>)
    ensures IsUnion(hash, scrs, out)
  {
    var found: map<string, Scr> := map[];
    for i := 0 to |scrs|
      invariant Summarises(hash, found, scrs[..i])
    {
      var scr := scrs[i];
      assert scrs[..i + 1] == scrs[..i] + [scr];
      if scr.hash !in found {
        SummariesGrow(hash, found, scrs[..i], scr, scr.logs);
        found := found[scr.hash := scr];
      } else {
        var mergedLog := MergeLogEvents(hash, found[scr.hash].logs, scr.logs);
        SummariesGrow(hash, found, scrs[..i], scr, mergedLog);
        found := found[scr.hash := scr.(logs := mergedLog)];
      }
    }
    assert scrs[..|scrs|] == scrs;
    out := ListResults(found);
    SummaryIsUnion(hash, found, scrs, out);
  }

  /** The values of the map, in any order. */
  method ListResults(found: map<string, Scr>) returns (out: seq<Scr>)
    requires forall h :: h in found ==> found[h].hash == h
    ensures DistinctHashes(out)
    ensures forall scr :: scr in out <==> scr.hash in found && found[scr.hash] == scr
  {
    out := [];
    var pending := found.Keys;
    while pending != {}
      invariant pending <= found.Keys
      invariant DistinctHashes(out)
      invariant forall scr :: scr in out <==> scr.hash in found && scr.hash !in pending && found[scr.hash] == scr
    {
      var h :| h in pending;
      out := out + [found[h]];
      pending := pending - {h};
    }
  }

  lemma SummaryIsUnion(hash: EventHash, found: map<string, Scr>, scrs: seq<Scr>, out: seq<Scr>)
    requires Summarises(hash, found, scrs) && DistinctHashes(out)
    requires forall scr :: scr in out <==> scr.hash in found && found[scr.hash] == scr
    ensures IsUnion(hash, scrs, out)
  {
    forall h | h in Hashes(scrs) ensures h in Hashes(out) {
      assert Summary(hash, found[h], scrs, h);
      assert found[h] in out;
    }
    forall h ensures Logged(scrs, h) <==> Logged(out, h) {
      if h in found {
        assert Summary(hash, found[h], scrs, h);
        assert found[h] in out;
      }
    }
    forall h, key ensures Reported(hash, scrs, h, key) <==> Reported(hash, out, h, key) {
      if h in found {
        assert Summary(hash, found[h], scrs, h);
        assert found[h] in out;
      }
    }
    forall scr | scr in out ensures FieldsFrom(scr, scrs) {
      assert Summary(hash, found[scr.hash], scrs, scr.hash);
    }
  }

  // ----- The union, occurrence by occurrence -----

  lemma {:induction false} LastAt(scrs: seq<Scr>, h: string) returns (i: nat)
    requires h in Hashes(scrs)
    ensures i < |scrs| && scrs[i] == Last(scrs, h) && scrs[i].hash == h
    ensures forall j :: i < j < |scrs| ==> scrs[j].hash != h
  {
    var n := |scrs| - 1;
    if scrs[n].hash == h {
      i := n;
    } else {
      assert h in Hashes(scrs[..n]) by {
        assert forall scr :: scr in scrs ==> scr == scrs[n] || scr in scrs[..n];
      }
      i := LastAt(scrs[..n], h);
    }
  }

  lemma {:induction false} FirstLogAt(scrs: seq<Scr>, h: string) returns (i: nat)
    requires Logged(scrs, h)
    ensures i < |scrs| && scrs[i].hash == h && scrs[i].logs.Some?
    ensures scrs[i].logs.value.address == FirstLogAddress(scrs, h)
    ensures forall j :: 0 <= j < i && scrs[j].hash == h ==> scrs[j].logs.None?
  {
    var n := |scrs| - 1;
    var init := scrs[..n];
    assert forall scr :: scr in scrs ==> scr == scrs[n] || scr in init;
    if Logged(init, h) {
      i := FirstLogAt(init, h);
    } else {
      i := n;
      forall j | 0 <= j < i && scrs[j].hash == h ensures scrs[j].logs.None? {
        assert init[j] in init;
      }
    }
  }

  /** What is united, without the notions above: a result stands for all occurrences of its hash. It is the last of
      them but for its log, which has the address of the first log among them, */
  lemma UnionInFull(hash: EventHash, scrs: seq<Scr>, out: seq<Scr>, k: nat) returns (last: nat, first: nat)
    requires IsUnion(hash, scrs, out) && k < |out|
    ensures forall j :: 0 <= j < |out| && j != k ==> out[j].hash != out[k].hash
    ensures last < |scrs| && scrs[last].hash == out[k].hash && out[k] == scrs[last].(logs := out[k].logs)
    ensures forall j :: last < j < |scrs| ==> scrs[j].hash != out[k].hash
    ensures out[k].logs.None? ==> forall scr :: scr in scrs && scr.hash == out[k].hash ==> scr.logs.None?
    ensures out[k].logs.Some? ==>
      && first < |scrs| && scrs[first].hash == out[k].hash && scrs[first].logs.Some?
      && out[k].logs.value.address == scrs[first].logs.value.address
      && (forall j :: 0 <= j < first && scrs[j].hash == out[k].hash ==> scrs[j].logs.None?)
  {
    assert FieldsFrom(out[k], scrs);
    OnlyOne(out, k);
    assert Logged(out, out[k].hash) <==> Logged(scrs, out[k].hash);
    last := LastAt(scrs, out[k].hash);
    first := 0;
    if out[k].logs.Some? {
      first := FirstLogAt(scrs, out[k].hash);
    }
  }

  /** and an event for each key that an event of theirs has, and no others. */
  lemma UnionEventsInFull(hash: EventHash, scrs: seq<Scr>, out: seq<Scr>, k: nat, key: string)
    requires IsUnion(hash, scrs, out) && k < |out|
    ensures (out[k].logs.Some? && exists e :: e in out[k].logs.value.events && hash(e) == key)
            <==> exists scr, e :: scr in scrs && scr.hash == out[k].hash && scr.logs.Some?
                                  && e in scr.logs.value.events && hash(e) == key
  {
    OnlyOne(out, k);
    assert Reported(hash, scrs, out[k].hash, key) <==> Reported(hash, out, out[k].hash, key);
    if scr, e :| scr in scrs && scr.hash == out[k].hash && scr.logs.Some?
                 && e in scr.logs.value.events && hash(e) == key
    {
      assert Holds(hash, scr.logs, key);
    }
    if Reported(hash, out, out[k].hash, key) {
      var o :| o in out && o.hash == out[k].hash && Holds(hash, o.logs, key);
      assert o == out[k];
    }
    if Reported(hash, scrs, out[k].hash, key) {
      var scr :| scr in scrs && scr.hash == out[k].hash && Holds(hash, scr.logs, key);
      var e :| e in scr.logs.value.events && hash(e) == key;
    }
    if out[k].logs.Some? && exists e :: e in out[k].logs.value.events && hash(e) == key {
      assert Holds(hash, out[k].logs, key);
    }
  }

  lemma OnlyOne(out: seq<Scr>, k: nat)
    requires DistinctHashes(out) && k < |out|
    ensures forall j :: 0 <= j < |out| && j != k ==> out[j].hash != out[k].hash
    ensures forall scr :: scr in out && scr.hash == out[k].hash ==> scr == out[k]
  {
  }

  /** No hash is lost. */
  lemma UnionHasAll(hash: EventHash, scrs: seq<Scr>, out: seq<Scr>, scr: Scr)
    requires IsUnion(hash, scrs, out) && scr in scrs
    ensures exists o :: o in out && o.hash == scr.hash
  {
    assert scr.hash in Hashes(out);
  }
}
