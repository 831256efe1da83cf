/** The capped, insertion-ordered collectors behind indicator extraction
    (src/heron/analysis/extractor.py). */
module Indicators {
  import opened Wrappers

  const MAX_PER_KIND: nat := 1000

  /** One sighting: an indicator, where it was seen, and an optional text (the anchor text of a
      link, the file name of an attachment). */
  datatype Event<K> = Event(key: K, source: string, text: Option<string>)

  /** What is kept of one indicator. */
  datatype Entry<K> = Entry(key: K, sources: seq<string>, texts: seq<string>)

  // ------------------------------------------------------------------ the unbounded reference

  /** The elements in the order in which they were first seen. */
  function Distinct<T(==)>(s: seq<T>): seq<T> {
    if s == [] then [] else Add(Distinct(s[..|s| - 1]), s[|s| - 1])
  }

  /** An insertion-ordered set gains an element. */
  function Add<T(==)>(s: seq<T>, x: T): seq<T> {
    if x in s then s else s + [x]
  }

  function FirstIndex<T(==)>(s: seq<T>, x: T): (i: nat)
    ensures i <= |s| && x !in s[..i]
    ensures x in s <==> i < |s|
    ensures i < |s| ==> s[i] == x
  {
    if s == [] || s[0] == x then 0 else
    var i := 1 + FirstIndex(s[1..], x);
    assert s[..i] == [s[0]] + s[1..][..i - 1];
    i
  }

  lemma {:induction false} FirstIndexOfPrefix<T>(s: seq<T>, t: seq<T>, x: T)
    requires x in s
    ensures FirstIndex(s + t, x) == FirstIndex(s, x)
  {
    if s[0] != x {
      FirstIndexOfPrefix(s[1..], t, x);
      assert (s + t)[1..] == s[1..] + t;
    } else {
      assert (s + t)[0] == x;
    }
  }

  lemma {:induction false} FirstIndexOfLast<T>(s: seq<T>, x: T)
    requires x !in s
    ensures FirstIndex(s + [x], x) == |s|
  {
    if s != [] {
      FirstIndexOfLast(s[1..], x);
      assert (s + [x])[1..] == s[1..] + [x];
    }
  }

  lemma {:induction false} DistinctSameElements<T>(s: seq<T>, x: T)
    ensures x in Distinct(s) <==> x in s
  {
    if s != [] {
      DistinctSameElements(s[..|s| - 1], x);
      assert s == s[..|s| - 1] + [s[|s| - 1]];
    }
  }

  /** `Distinct` lists every element once, and lists them by first occurrence. */
  lemma {:induction false} DistinctByFirstSeen<T>(s: seq<T>)
    ensures forall x :: x in Distinct(s) <==> x in s
    ensures forall i, j :: 0 <= i < j < |Distinct(s)| ==> FirstIndex(s, Distinct(s)[i]) < FirstIndex(s, Distinct(s)[j])
  {
    forall x ensures x in Distinct(s) <==> x in s { DistinctSameElements(s, x); }
    if s != [] {
      var p, x, d := s[..|s| - 1], s[|s| - 1], Distinct(s[..|s| - 1]);
      DistinctByFirstSeen(p);
      assert s == p + [x];
      forall i | 0 <= i < |d| ensures FirstIndex(s, d[i]) == FirstIndex(p, d[i]) {
        DistinctSameElements(p, d[i]);
        FirstIndexOfPrefix(p, [x], d[i]);
      }
      DistinctSameElements(p, x);
      if x !in p {
        FirstIndexOfLast(p, x);
      }
    }
  }

  function Keys<K>(events: seq<Event<K>>): seq<K> {
    seq(|events|, i requires 0 <= i < |events| => events[i].key)
  }

  /** The sources of one indicator, in order. */
  function SourcesOf<K(==)>(events: seq<Event<K>>, key: K): seq<string> {
    if events == [] then [] else
    var e := events[|events| - 1];
    SourcesOf(events[..|events| - 1], key) + if e.key == key then [e.source] else []
  }

  /** The texts of one indicator, in order; an empty text is not one. */
  function TextsOf<K(==)>(events: seq<Event<K>>, key: K): seq<string> {
    if events == [] then [] else
    var e := events[|events| - 1];
    TextsOf(events[..|events| - 1], key) + if e.key == key && HasText(e) then [e.text.value] else []
  }

  predicate HasText<K>(e: Event<K>) {
    e.text.Some? && e.text.value != ""
  }

  /** All that the events say about one indicator. */
  function Reported<K(==)>(events: seq<Event<K>>, key: K): Entry<K> {
    Entry(key, Distinct(SourcesOf(events, key)), Distinct(TextsOf(events, key)))
  }

  function ReportedAll<K(==)>(events: seq<Event<K>>, keys: seq<K>): seq<Entry<K>> {
    seq(|keys|, i requires 0 <= i < |keys| => Reported(events, keys[i]))
  }

  function Take<T>(s: seq<T>, n: nat): seq<T> {
    if |s| <= n then s else s[..n]
  }

  function Kept<T>(keys: seq<T>, cap: Option<nat>): seq<T> {
    if cap.Some? then Take(keys, cap.value + 1) else keys
  }

  /** What is stored: each indicator in first-seen order with all its sources and texts, one
      indicator past the cap. */
  function Stored<K(==)>(events: seq<Event<K>>, cap: Option<nat>): seq<Entry<K>> {
    var keys := Distinct(Keys(events));
    ReportedAll(events, Kept(keys, cap))
  }

  /** Sources and texts are collected event by event, and only from the indicator's own events;
      an empty text is none. */
  lemma {:induction false} LabelsByEvent<K>(events: seq<Event<K>>, e: Event<K>, key: K)
    ensures SourcesOf<K>([], key) == [] && TextsOf<K>([], key) == []
    ensures SourcesOf(events + [e], key) == SourcesOf(events, key) + if e.key == key then [e.source] else []
    ensures e.key == key && e.text.Some? && e.text.value != "" ==>
              TextsOf(events + [e], key) == TextsOf(events, key) + [e.text.value]
    ensures e.key != key || e.text.None? || e.text.value == "" ==> TextsOf(events + [e], key) == TextsOf(events, key)
  {
    assert (events + [e])[..|events|] == events;
    assert TextsOf(events, key) + [] == TextsOf(events, key);
  }

  /** A source is reported for an indicator if and only if some event saw it there; likewise a text. */
  lemma {:induction false} ReportedLabels<K>(events: seq<Event<K>>, key: K, word: string)
    ensures word in Reported(events, key).sources <==> exists e :: e in events && e.key == key && e.source == word
    ensures word in Reported(events, key).texts <==>
            word != "" && exists e :: e in events && e.key == key && e.text == Some(word)
  {
    DistinctSameElements(SourcesOf(events, key), word);
    DistinctSameElements(TextsOf(events, key), word);
    LabelsOfEvents(events, key, word);
  }

  lemma {:induction false} LabelsOfEvents<K>(events: seq<Event<K>>, key: K, word: string)
    ensures word in SourcesOf(events, key) <==> exists e :: e in events && e.key == key && e.source == word
    ensures word in TextsOf(events, key) <==> word != "" && exists e :: e in events && e.key == key && e.text == Some(word)
  {
    if events != [] {
      var init, last := events[..|events| - 1], events[|events| - 1];
      LabelsOfEvents(init, key, word);
      assert events == init + [last];
    }
  }

  // ------------------------------------------------------------------ one step

  function With<K>(entry: Entry<K>, e: Event<K>): Entry<K> {
    Entry(entry.key, Add(entry.sources, e.source), if HasText(e) then Add(entry.texts, e.text.value) else entry.texts)
  }

  lemma {:induction false} ReportedStep<K>(events: seq<Event<K>>, e: Event<K>, key: K)
    ensures Reported(events + [e], key) == if e.key == key then With(Reported(events, key), e) else Reported(events, key)
  {
    var all := events + [e];
    assert all[..|all| - 1] == events;
    DistinctStep(SourcesOf(events, key), e.source);
    assert SourcesOf(events, key) + [] == SourcesOf(events, key) && TextsOf(events, key) + [] == TextsOf(events, key);
    if HasText(e) {
      DistinctStep(TextsOf(events, key), e.text.value);
    }
  }

  lemma {:induction false} DistinctStep<T>(s: seq<T>, x: T)
    ensures Distinct(s + [x]) == Add(Distinct(s), x)
  {
    assert (s + [x])[..|s + [x]| - 1] == s;
  }

  lemma {:induction false} UnseenIsBlank<K>(events: seq<Event<K>>, key: K)
    requires key !in Keys(events)
    ensures SourcesOf(events, key) == [] && TextsOf(events, key) == []
  {
    if events != [] {
      var p := events[..|events| - 1];
      assert Keys(events) == Keys(p) + [events[|events| - 1].key];
      UnseenIsBlank(p, key);
    }
  }

  // ------------------------------------------------------------------ the collector

  class Collector<K(==)> {
    var entries: seq<Entry<K>>
    const cap: Option<nat>

    constructor (cap: Option<nat>)
      ensures this.cap == cap && entries == []
    {
      this.cap := cap;
      entries := [];
    }

    /** Adds a sighting. Past the cap only indicators that are already there are updated. */
    method Note(e: Event<K>)
      modifies this
      ensures entries == Noted(old(entries), e, cap)
    {
      var i := 0;
      while i < |entries| && entries[i].key != e.key
        invariant 0 <= i <= |entries|
        invariant forall j :: 0 <= j < i ==> entries[j].key != e.key
      {
        i := i + 1;
      }
      PositionIs(entries, e.key, i);
      if i == |entries| {
        if cap.Some? && |entries| > cap.value {
          return;
        }
        entries := entries + [With(Entry(e.key, [], []), e)];
      } else {
        entries := entries[i := With(entries[i], e)];
      }
    }
  }

  function Position<K(==)>(entries: seq<Entry<K>>, key: K): (i: nat)
    ensures i <= |entries|
  {
    if entries == [] || entries[0].key == key then 0 else 1 + Position(entries[1..], key)
  }

  lemma {:induction false} PositionIs<K>(entries: seq<Entry<K>>, key: K, i: nat)
    requires i <= |entries| && (i < |entries| ==> entries[i].key == key)
    requires forall j :: 0 <= j < i ==> entries[j].key != key
    ensures Position(entries, key) == i
  {
    if i > 0 {
      PositionIs(entries[1..], key, i - 1);
    }
  }

  function Noted<K(==)>(entries: seq<Entry<K>>, e: Event<K>, cap: Option<nat>): seq<Entry<K>> {
    var i := Position(entries, e.key);
    if i < |entries| then entries[i := With(entries[i], e)]
    else if cap.Some? && |entries| > cap.value then entries
    else entries + [With(Entry(e.key, [], []), e)]
  }

  lemma {:induction false} FirstIndexIsPosition<K>(events: seq<Event<K>>, keys: seq<K>, key: K)
    ensures Position(ReportedAll(events, keys), key) == FirstIndex(keys, key)
  {
    var i := FirstIndex(keys, key);
    forall j | 0 <= j < i ensures ReportedAll(events, keys)[j].key != key {
      assert keys[j] == keys[..i][j];
    }
    PositionIs(ReportedAll(events, keys), key, i);
  }

  ghost predicate NoDuplicates<T>(s: seq<T>) {
    forall i, j :: 0 <= i < j < |s| ==> s[i] != s[j]
  }

  lemma {:induction false} DistinctHasNoDuplicates<T>(s: seq<T>)
    ensures NoDuplicates(Distinct(s))
  {
    DistinctByFirstSeen(s);
  }

  lemma {:induction false} ReportedAt<K>(events: seq<Event<K>>, e: Event<K>, keys: seq<K>, j: nat)
    requires NoDuplicates(keys) && j < |keys|
    ensures Reported(events + [e], keys[j])
            == if j == FirstIndex(keys, e.key) then With(Reported(events, keys[j]), e) else Reported(events, keys[j])
  {
    ReportedStep(events, e, keys[j]);
    var i := FirstIndex(keys, e.key);
    if j < i { assert keys[j] in keys[..i]; }
  }

  lemma {:induction false} OneChanged<T>(before: seq<T>, after: seq<T>, i: nat, v: T)
    requires |before| == |after| && forall j :: 0 <= j < |before| ==> after[j] == if j == i then v else before[j]
    ensures after == if i < |before| then before[i := v] else before
  {
  }

  /** One more event about listed indicators. */
  lemma {:induction false} ReportedAllStep<K>(events: seq<Event<K>>, e: Event<K>, keys: seq<K>)
    requires NoDuplicates(keys)
    ensures var before, i := ReportedAll(events, keys), FirstIndex(keys, e.key);
            ReportedAll(events + [e], keys) == if i < |keys| then before[i := With(before[i], e)] else before
  {
    var before, i := ReportedAll(events, keys), FirstIndex(keys, e.key);
    var v := if i < |keys| then With(before[i], e) else Entry(e.key, [], []);
    forall j | 0 <= j < |keys| ensures ReportedAll(events + [e], keys)[j] == if j == i then v else before[j] {
      ReportedAt(events, e, keys, j);
    }
    OneChanged(before, ReportedAll(events + [e], keys), i, v);
  }

  lemma {:induction false} FirstReport<K>(events: seq<Event<K>>, e: Event<K>)
    requires e.key !in Keys(events)
    ensures Reported(events + [e], e.key) == With(Entry(e.key, [], []), e)
  {
    UnseenIsBlank(events, e.key);
    ReportedStep(events, e, e.key);
  }

  lemma {:induction false} NotedListed<K>(events: seq<Event<K>>, e: Event<K>, cap: Option<nat>, kept: seq<K>)
    requires NoDuplicates(kept) && e.key in kept
    ensures Noted(ReportedAll(events, kept), e, cap) == ReportedAll(events + [e], kept)
  {
    FirstIndexIsPosition(events, kept, e.key);
    ReportedAllStep(events, e, kept);
  }

  lemma {:induction false} ReportedAllAppend<K>(events: seq<Event<K>>, keys: seq<K>, key: K)
    ensures ReportedAll(events, keys + [key]) == ReportedAll(events, keys) + [Reported(events, key)]
  {
  }

  lemma {:induction false} NotedUnlisted<K>(events: seq<Event<K>>, e: Event<K>, cap: Option<nat>, kept: seq<K>)
    requires NoDuplicates(kept) && e.key !in kept
    ensures cap.Some? && |kept| > cap.value ==>
              Noted(ReportedAll(events, kept), e, cap) == ReportedAll(events + [e], kept)
    ensures e.key !in Keys(events) && !(cap.Some? && |kept| > cap.value) ==>
              Noted(ReportedAll(events, kept), e, cap) == ReportedAll(events + [e], kept + [e.key])
  {
    FirstIndexIsPosition(events, kept, e.key);
    ReportedAllStep(events, e, kept);
    if e.key !in Keys(events) {
      FirstReport(events, e);
      ReportedAllAppend(events + [e], kept, e.key);
    }
  }

  /** Storing step by step with the size test gives the cut-off report of everything seen. */
  lemma {:induction false} NotedKeepsReport<K>(events: seq<Event<K>>, e: Event<K>, cap: Option<nat>)
    ensures Noted(Stored(events, cap), e, cap) == Stored(events + [e], cap)
  {
    var keys := Distinct(Keys(events));
    var kept := Kept(keys, cap);
    assert Keys(events + [e]) == Keys(events) + [e.key];
    DistinctStep(Keys(events), e.key);
    DistinctByFirstSeen(Keys(events));
    DistinctHasNoDuplicates(Keys(events));
    if e.key in kept {
      NotedListed(events, e, cap, kept);
    } else {
      NotedUnlisted(events, e, cap, kept);
    }
  }

  lemma {:induction false} NothingStored<K>(cap: Option<nat>)
    ensures Stored<K>([], cap) == []
  {
    assert Keys<K>([]) == [];
  }

  /** The whole stream of sightings. */
  method Collect<K(==)>(events: seq<Event<K>>, cap: Option<nat>) returns (entries: seq<Entry<K>>)
    ensures entries == Stored(events, cap)
  {
    var collector := new Collector(cap);
    NothingStored<K>(cap);
    assert events[..0] == [];
    for i := 0 to |events|
      invariant collector.cap == cap
      invariant collector.entries == Stored(events[..i], cap)
    {
      NotedKeepsReport(events[..i], events[i], cap);
      assert events[..i + 1] == events[..i] + [events[i]];
      collector.Note(events[i]);
    }
    assert events[..|events|] == events;
    entries := collector.entries;
  }

  /** Keeping one indicator past the cap is enough: the report and the truncation flag are those
      of the collector that keeps everything. */
  method Report<K(==)>(events: seq<Event<K>>, cap: Option<nat>) returns (report: seq<Entry<K>>, truncated: bool)
    requires cap.Some? ==> cap.value >= MAX_PER_KIND
    ensures report == Take(ReportedAll(events, Distinct(Keys(events))), MAX_PER_KIND)
    ensures truncated <==> |Distinct(Keys(events))| > MAX_PER_KIND
    ensures |report| <= 1000 && (!truncated ==> |report| == |Distinct(Keys(events))|)
  {
    var entries := Collect(events, cap);
    truncated := |entries| > MAX_PER_KIND;
    report := Take(entries, MAX_PER_KIND);
  }
}
