/**
 * The public library page: the public decks narrowed by a subject filter
 * and a search box, and the number of decks per subject.
 */
module PublicLibrary {
  import opened Wrappers
  import opened Records
  import Seqs
  import Text

  /** The subject filter that keeps every deck. */
  const All: string := "All"

  predicate SubjectMatches(d: Deck, selected: string) {
    d.subject == Some(selected)
  }

  /** The search: the lowercased name, description or subject contains the
      lowercased query, as typed (surrounding spaces included). */
  predicate QueryMatches(d: Deck, query: string) {
    var q := Text.Lower(query);
    Text.Contains(Text.Lower(d.name), q)
    || Text.Contains(Text.Lower(d.description), q)
    || (d.subject.Some? && Text.Contains(Text.Lower(d.subject.value), q))
  }

  /** Whether a deck stays on the page. */
  predicate Shown(d: Deck, selected: string, query: string) {
    (selected == All || SubjectMatches(d, selected)) && (Text.IsBlank(query) || QueryMatches(d, query))
  }

  /** `filterDecks`: first by subject unless 'All' is selected, then by the
      query unless it is blank. */
  function FilterDecks(decks: seq<Deck>, selected: string, query: string): (r: seq<Deck>)
    ensures forall d :: d in r <==> d in decks && Shown(d, selected, query)
  {
    var bySubject := if selected != All then Seqs.Filter(decks, (d: Deck) => SubjectMatches(d, selected)) else decks;
    if !Text.IsBlank(query) then Seqs.Filter(bySubject, (d: Deck) => QueryMatches(d, query)) else bySubject
  }

  /** The two filters act as one filter by `Shown`, so the page lists the
      shown decks in the library's own order. */
  lemma FilterDecksInOrder(decks: seq<Deck>, selected: string, query: string)
    ensures FilterDecks(decks, selected, query) == Seqs.Filter(decks, (d: Deck) => Shown(d, selected, query))
    ensures Seqs.Subsequence(FilterDecks(decks, selected, query), decks)
  {
    var shown := (d: Deck) => Shown(d, selected, query);
    var bySubject := (d: Deck) => SubjectMatches(d, selected);
    var byQuery := (d: Deck) => QueryMatches(d, query);
    var always := (d: Deck) => true;
    if selected != All && !Text.IsBlank(query) {
      Seqs.FilterFilter(decks, bySubject, byQuery, shown);
    } else if selected != All {
      Seqs.FilterFilter(decks, bySubject, always, shown);
      Seqs.FilterAll(Seqs.Filter(decks, bySubject), always);
    } else if !Text.IsBlank(query) {
      Seqs.FilterFilter(decks, always, byQuery, shown);
      Seqs.FilterAll(decks, always);
    } else {
      Seqs.FilterAll(decks, shown);
    }
    Seqs.FilterSubsequence(decks, shown);
  }

  /** With 'All' and an empty search box every public deck is listed. */
  lemma NoFilterShowsAll(decks: seq<Deck>)
    ensures FilterDecks(decks, All, "") == decks
  {
  }

  /** `deck.subject || 'Other'`. */
  function SubjectOf(d: Deck): string {
    if d.subject.Some? && d.subject.value != "" then d.subject.value else "Other"
  }

  /** How many of the first `n` decks count under the subject. */
  function Count(decks: seq<Deck>, n: nat, subject: string): nat
    requires n <= |decks|
  {
    if n == 0 then 0 else Count(decks, n - 1, subject) + (if SubjectOf(decks[n - 1]) == subject then 1 else 0)
  }

  datatype SubjectCount = SubjectCount(subject: string, count: nat)

  /** The sum of the counts. */
  function Total(stats: seq<SubjectCount>): nat {
    if stats == [] then 0 else Total(stats[..|stats| - 1]) + stats[|stats| - 1].count
  }

  lemma {:induction false} TotalUpdate(stats: seq<SubjectCount>, i: nat, e: SubjectCount)
    requires i < |stats|
    ensures Total(stats[i := e]) + stats[i].count == Total(stats) + e.count
  {
    var t := stats[i := e];
    if i < |stats| - 1 {
      TotalUpdate(stats[..|stats| - 1], i, e);
      assert t[..|t| - 1] == stats[..|stats| - 1][i := e];
    } else {
      assert t[..|t| - 1] == stats[..|stats| - 1];
    }
  }

  function Subjects(stats: seq<SubjectCount>): set<string> {
    set i | 0 <= i < |stats| :: stats[i].subject
  }

  /** `stats` tallies the first `n` decks: one entry per subject that
      occurs, each with its count, and the counts add up to `n`. */
  ghost predicate Tallies(stats: seq<SubjectCount>, decks: seq<Deck>, n: nat)
    requires n <= |decks|
  {
    && (forall i, j :: 0 <= i < j < |stats| ==> stats[i].subject != stats[j].subject)
    && (forall i :: 0 <= i < |stats| ==> stats[i].count == Count(decks, n, stats[i].subject) > 0)
    && (forall s :: Count(decks, n, s) > 0 ==> s in Subjects(stats))
    && Total(stats) == n
  }

  /** `stats.set(subject, (stats.get(subject) || 0) + 1)`: an entry already
      there is incremented in place, a new one goes at the end. */
  function Tally(stats: seq<SubjectCount>, subject: string): seq<SubjectCount> {
    var i := Seqs.FindIndex(stats, (e: SubjectCount) => e.subject == subject);
    if i >= 0 then stats[i := SubjectCount(subject, stats[i].count + 1)]
    else stats + [SubjectCount(subject, 1)]
  }

  /** Tallying the next deck keeps the tally exact. */
  lemma TallyStep(stats: seq<SubjectCount>, decks: seq<Deck>, n: nat)
    requires n < |decks| && Tallies(stats, decks, n)
    ensures Tallies(Tally(stats, SubjectOf(decks[n])), decks, n + 1)
  {
    var subject := SubjectOf(decks[n]);
    var i := Seqs.FindIndex(stats, (e: SubjectCount) => e.subject == subject);
    if i >= 0 {
      TallyFound(stats, decks, n, i);
    } else {
      TallyNew(stats, decks, n);
    }
  }

  lemma TallyFound(stats: seq<SubjectCount>, decks: seq<Deck>, n: nat, i: nat)
    requires n < |decks| && Tallies(stats, decks, n)
    requires i < |stats| && stats[i].subject == SubjectOf(decks[n])
    ensures Tallies(stats[i := SubjectCount(SubjectOf(decks[n]), stats[i].count + 1)], decks, n + 1)
  {
    var subject := SubjectOf(decks[n]);
    var next := stats[i := SubjectCount(subject, stats[i].count + 1)];
    assert forall j :: 0 <= j < |next| ==> next[j].subject == stats[j].subject;
    assert Subjects(next) == Subjects(stats) by {
      forall x | x in Subjects(stats) ensures x in Subjects(next) {
        var j :| 0 <= j < |stats| && stats[j].subject == x;
        assert next[j].subject == x;
      }
    }
    forall j | 0 <= j < |next|
      ensures next[j].count == Count(decks, n + 1, next[j].subject) > 0
    {
      if j != i {
        assert next[j] == stats[j];
      }
    }
    forall s | Count(decks, n + 1, s) > 0
      ensures s in Subjects(next)
    {
      if s != subject {
        assert Count(decks, n, s) > 0;
      }
    }
    TotalUpdate(stats, i, SubjectCount(subject, stats[i].count + 1));
  }

  lemma TallyNew(stats: seq<SubjectCount>, decks: seq<Deck>, n: nat)
    requires n < |decks| && Tallies(stats, decks, n)
    requires forall j :: 0 <= j < |stats| ==> stats[j].subject != SubjectOf(decks[n])
    ensures Tallies(stats + [SubjectCount(SubjectOf(decks[n]), 1)], decks, n + 1)
  {
    var subject := SubjectOf(decks[n]);
    var next := stats + [SubjectCount(subject, 1)];
    assert subject !in Subjects(stats);
    assert Count(decks, n, subject) == 0;
    assert Subjects(next) == Subjects(stats) + {subject} by {
      forall x | x in Subjects(stats) ensures x in Subjects(next) {
        var j :| 0 <= j < |stats| && stats[j].subject == x;
        assert next[j].subject == x;
      }
      assert next[|stats|].subject == subject;
    }
    forall j | 0 <= j < |next|
      ensures next[j].count == Count(decks, n + 1, next[j].subject) > 0
    {
      if j < |stats| {
        assert next[j] == stats[j];
      }
    }
    forall s | Count(decks, n + 1, s) > 0
      ensures s in Subjects(next)
    {
      if s != subject {
        assert Count(decks, n, s) > 0;
      }
    }
    forall a, b | 0 <= a < b < |next|
      ensures next[a].subject != next[b].subject
    {
      if b < |stats| {
        assert next[a] == stats[a] && next[b] == stats[b];
      }
    }
    assert next[..|stats|] == stats;
  }

  /** `getSubjectStats`: one entry per subject that occurs, with the number
      of decks counted under it; the counts add up to the number of decks. */
  method SubjectStats(decks: seq<Deck>) returns (stats: seq<SubjectCount>)
    ensures Tallies(stats, decks, |decks|)
  {
    stats := [];
    var k := 0;
    while k < |decks|
      invariant 0 <= k <= |decks|
      invariant Tallies(stats, decks, k)
    {
      TallyStep(stats, decks, k);
      stats := Tally(stats, SubjectOf(decks[k]));
      k := k + 1;
    }
  }
}
