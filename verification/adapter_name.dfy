/**
 The queue-adapter name cleaning of the ActiveJob instrumentation.

 The agent reports the configured queue adapter by its class name, cleaned by
 the unanchored Ruby regex `/ActiveJob::QueueAdapters::(.*)Adapter/`: when the
 name contains a match, the WHOLE name becomes `"ActiveJob::"` followed by the
 capture; otherwise it is kept as it is.

 The regex is modelled by hand. `MatchAt` and `IsRegexMatch` say declaratively
 what a match is and which one Ruby's backtracking engine reports (leftmost
 start, then the greedy `.*`, which cannot cross a newline); `Find` is the
 executable search, proved to return exactly that match.
 */
module AdapterName {

  datatype Option<+T> = None | Some(value: T)

  /** The literal text before the capture group. */
  const QueueAdaptersPrefix: string := "ActiveJob::QueueAdapters::"

  /** The literal text after the capture group. */
  const AdapterSuffix: string := "Adapter"

  /** What the cleaned name starts with. */
  const CleanedPrefix: string := "ActiveJob::"

  /** `w` occurs in `s` starting at index `i`. */
  predicate HasAt(s: string, i: nat, w: string) {
    i + |w| <= |s| && s[i..i + |w|] == w
  }

  /** None of `s[lo..hi]` is a newline, the one character `.` does not match. */
  predicate NoNewline(s: string, lo: nat, hi: nat)
    requires lo <= hi <= |s|
  {
    forall m :: lo <= m < hi ==> s[m] != '\n'
  }

  /**
   The regex matches `s[start..stop + |AdapterSuffix|]`, with the capture
   group spanning `s[start + |QueueAdaptersPrefix|..stop]`.
   */
  ghost predicate MatchAt(s: string, start: nat, stop: nat) {
    && start + |QueueAdaptersPrefix| <= stop
    && HasAt(s, start, QueueAdaptersPrefix)
    && HasAt(s, stop, AdapterSuffix)
    && NoNewline(s, start + |QueueAdaptersPrefix|, stop)
  }

  /** The regex matches somewhere in `s` (Ruby's `=~` is truthy). */
  ghost predicate Matches(s: string) {
    exists start: nat, stop: nat :: MatchAt(s, start, stop)
  }

  /**
   The match Ruby reports: no match starts further left, and among the
   matches at that start the capture is the longest one.
   */
  ghost predicate IsRegexMatch(s: string, start: nat, stop: nat) {
    && MatchAt(s, start, stop)
    && (forall i: nat, j: nat :: MatchAt(s, i, j) ==> start <= i)
    && (forall j: nat :: MatchAt(s, start, j) ==> j <= stop)
  }

  /** The reported match is unique, so `$1` is well defined. */
  lemma RegexMatchUnique(s: string, start: nat, stop: nat, start': nat, stop': nat)
    requires IsRegexMatch(s, start, stop)
    requires IsRegexMatch(s, start', stop')
    ensures start == start' && stop == stop'
  {
  }

  /** The end of the line containing position `k`: where `.*` must stop. */
  function LineEnd(s: string, k: nat): (e: nat)
    requires k <= |s|
    ensures k <= e <= |s|
    ensures e == |s| || s[e] == '\n'
    ensures NoNewline(s, k, e)
    decreases |s| - k
  {
    if k == |s| || s[k] == '\n' then k else LineEnd(s, k + 1)
  }

  /** The largest index in `[lo, hi]` where `"Adapter"` occurs, if any. */
  function LastSuffix(s: string, lo: nat, hi: nat): (r: Option<nat>)
    requires lo <= hi
    ensures r.Some? ==> lo <= r.value <= hi && HasAt(s, r.value, AdapterSuffix)
    ensures r.Some? ==> forall j :: r.value < j <= hi ==> !HasAt(s, j, AdapterSuffix)
    ensures r.None? ==> forall j :: lo <= j <= hi ==> !HasAt(s, j, AdapterSuffix)
    decreases hi - lo
  {
    if HasAt(s, hi, AdapterSuffix) then Some(hi)
    else if hi == lo then None
    else LastSuffix(s, lo, hi - 1)
  }

  /**
   Given that the prefix occurs at `start`, where the greedy capture ends:
   the last `"Adapter"` on the same line, or None when the regex cannot
   match at this start.
   */
  function GreedyStop(s: string, start: nat): (r: Option<nat>)
    requires HasAt(s, start, QueueAdaptersPrefix)
    ensures r.Some? ==> MatchAt(s, start, r.value)
    ensures r.Some? ==> forall j: nat :: MatchAt(s, start, j) ==> j <= r.value
    ensures r.None? ==> forall j :: !MatchAt(s, start, j)
  {
    var k := start + |QueueAdaptersPrefix|;
    var e := LineEnd(s, k);
    LastSuffix(s, k, e)
  }

  /** The leftmost match whose start is at or after `from`, if any. */
  function FindFrom(s: string, from: nat): (r: Option<(nat, nat)>)
    ensures r.Some? ==> from <= r.value.0 && MatchAt(s, r.value.0, r.value.1)
    ensures r.Some? ==> forall i: nat, j: nat :: from <= i && MatchAt(s, i, j) ==> r.value.0 <= i
    ensures r.Some? ==> forall j: nat :: MatchAt(s, r.value.0, j) ==> j <= r.value.1
    ensures r.None? ==> forall i: nat, j: nat :: from <= i ==> !MatchAt(s, i, j)
    decreases |s| - from
  {
    if |s| < from + |QueueAdaptersPrefix| then None
    else if HasAt(s, from, QueueAdaptersPrefix) && GreedyStop(s, from).Some? then
      Some((from, GreedyStop(s, from).value))
    else
      FindFrom(s, from + 1)
  }

  /** The match Ruby's `ADAPTER_REGEX =~ name` reports, or None. */
  function Find(s: string): (r: Option<(nat, nat)>)
    ensures r.Some? ==> IsRegexMatch(s, r.value.0, r.value.1)
    ensures r.None? <==> !Matches(s)
  {
    FindFrom(s, 0)
  }

  /**
   `clean_adapter_name`: on a match, `"ActiveJob::"` followed by the capture
   (what comes before the match or after the last `"Adapter"` is dropped);
   otherwise the name unchanged.
   */
  function Clean(name: string): (r: string)
    ensures !Matches(name) ==> r == name
    ensures Matches(name) ==>
      exists start: nat, stop: nat :: IsRegexMatch(name, start, stop)
        && r == CleanedPrefix + name[start + |QueueAdaptersPrefix|..stop]
    ensures Matches(name) ==> CleanedPrefix <= r && |r| < |name|
  {
    match Find(name)
    case None => name
    case Some((start, stop)) => CleanedPrefix + name[start + |QueueAdaptersPrefix|..stop]
  }

  /** Cleaning leaves a name alone exactly when the regex does not match it. */
  lemma CleanFixedIffNoMatch(name: string)
    ensures Clean(name) == name <==> !Matches(name)
  {
  }

  /** Cleaning is determined by the reported match alone. */
  lemma CleanAtMatch(name: string, start: nat, stop: nat)
    requires IsRegexMatch(name, start, stop)
    ensures Clean(name) == CleanedPrefix + name[start + |QueueAdaptersPrefix|..stop]
  {
  }

  /** A bare `QueueAdapters` class name is cleaned to `"ActiveJob::"` plus its core. */
  lemma CleanQueueAdapterClass(capture: string)
    requires '\n' !in capture
    ensures Clean(QueueAdaptersPrefix + capture + AdapterSuffix) == CleanedPrefix + capture
  {
    var s := QueueAdaptersPrefix + capture + AdapterSuffix;
    var stop := |QueueAdaptersPrefix| + |capture|;
    assert s[..|QueueAdaptersPrefix|] == QueueAdaptersPrefix;
    assert s[stop..] == AdapterSuffix;
    assert s[|QueueAdaptersPrefix|..stop] == capture;
    assert MatchAt(s, 0, stop);
    CleanAtMatch(s, 0, stop);
  }

  /**
   Text before the match and after the last `"Adapter"` is dropped, as long
   as the prefix does not occur earlier (else the match would start there)
   and no further `"Adapter"` begins after this one (else the greedy capture
   would run on to it).
   */
  lemma CleanDropsSurroundings(before: string, capture: string, after: string)
    requires '\n' !in capture
    requires forall i :: 0 <= i < |before| ==>
      !HasAt(before + QueueAdaptersPrefix + capture + AdapterSuffix + after, i, QueueAdaptersPrefix)
    requires forall j :: 0 < j <= |after| ==> !HasAt(AdapterSuffix + after, j, AdapterSuffix)
    ensures Clean(before + QueueAdaptersPrefix + capture + AdapterSuffix + after)
         == CleanedPrefix + capture
  {
    var s := before + QueueAdaptersPrefix + capture + AdapterSuffix + after;
    var start := |before|;
    var stop := start + |QueueAdaptersPrefix| + |capture|;
    assert s[start..start + |QueueAdaptersPrefix|] == QueueAdaptersPrefix;
    assert s[stop..stop + |AdapterSuffix|] == AdapterSuffix;
    assert s[start + |QueueAdaptersPrefix|..stop] == capture;
    assert s[stop..] == AdapterSuffix + after;
    assert MatchAt(s, start, stop);
    // No `"Adapter"` begins after this one, so no match from `start` runs further.
    forall j: nat | stop < j
      ensures !HasAt(s, j, AdapterSuffix)
    {
      if j + |AdapterSuffix| <= |s| {
        var t := AdapterSuffix + after;
        assert s[j..j + |AdapterSuffix|] == t[j - stop..j - stop + |AdapterSuffix|];
        assert !HasAt(t, j - stop, AdapterSuffix);
      }
    }
    CleanAtMatch(s, start, stop);
  }

  /**
   A class inside another namespace loses that namespace too: for every
   newline-free X, `Acme::ActiveJob::QueueAdapters::XAdapter` cleans to
   `ActiveJob::X`.
   */
  lemma CleanDropsOuterNamespace(capture: string)
    requires '\n' !in capture
    ensures Clean("Acme::" + QueueAdaptersPrefix + capture + AdapterSuffix) == CleanedPrefix + capture
  {
    var before := "Acme::";
    var rest := QueueAdaptersPrefix + capture + AdapterSuffix + [];
    assert before + QueueAdaptersPrefix + capture + AdapterSuffix + [] == before + rest;
    AcmeHoldsNoPrefix(before, rest);
    CleanDropsSurroundings(before, capture, []);
    assert before + QueueAdaptersPrefix + capture + AdapterSuffix + []
        == "Acme::" + QueueAdaptersPrefix + capture + AdapterSuffix;
  }

  /** The prefix does not start inside `"Acme::"`, whatever follows it. */
  lemma AcmeHoldsNoPrefix(before: string, rest: string)
    requires before == "Acme::"
    ensures forall i :: 0 <= i < |before| ==> !HasAt(before + rest, i, QueueAdaptersPrefix)
  {
    // `"Acme"` starts like `"ActiveJob"` but differs at its third letter;
    // every later position of `"Acme::"` holds a letter other than `'A'`.
    var name := before + rest;
    assert name[0] == 'A' && name[1] == 'c' && name[2] == 'm' && name[3] == 'e';
    assert name[4] == ':' && name[5] == ':';
    forall i | 0 <= i < |before|
      ensures !HasAt(name, i, QueueAdaptersPrefix)
    {
      if i + |QueueAdaptersPrefix| <= |name| {
        var w := name[i..i + |QueueAdaptersPrefix|];
        if i == 0 {
          assert w[2] == 'm' != QueueAdaptersPrefix[2];
        } else {
          assert w[0] == name[i] != QueueAdaptersPrefix[0];
        }
      }
    }
  }

  /** The standard adapter class names lose their namespace and suffix. */
  lemma CleanSidekiq(name: string)
    requires name == "ActiveJob::QueueAdapters::SidekiqAdapter"
    ensures Clean(name) == "ActiveJob::Sidekiq"
  {
    // The name is a parameter pinned by `requires`: a literal argument to
    // `Clean` makes the verifier unfold the search on it and run out of resources.
    var capture := "Sidekiq";
    assert name == QueueAdaptersPrefix + capture + AdapterSuffix;
    CleanQueueAdapterClass(capture);
  }

  /**
   The capture is greedy: it runs to the LAST `"Adapter"`, so an earlier
   `"Adapter"` stays inside it.
   */
  lemma CleanIsGreedy(first: string, second: string)
    requires '\n' !in first && '\n' !in second
    ensures Clean(QueueAdaptersPrefix + first + AdapterSuffix + second + AdapterSuffix)
         == CleanedPrefix + first + AdapterSuffix + second
  {
    var capture := first + AdapterSuffix + second;
    assert '\n' !in AdapterSuffix;
    assert QueueAdaptersPrefix + first + AdapterSuffix + second + AdapterSuffix
        == QueueAdaptersPrefix + capture + AdapterSuffix;
    CleanQueueAdapterClass(capture);
  }

  /** `.` does not match a newline, so a capture cannot span one. */
  lemma CleanStopsAtNewline(name: string)
    requires name == QueueAdaptersPrefix + "\n" + AdapterSuffix
    ensures Clean(name) == name
  {
  }

  /** A name without the `QueueAdapters` namespace is kept as it is. */
  lemma CleanCustom()
    ensures Clean("CustomAdapter") == "CustomAdapter"
  {
  }
}
