/** Cross-field validation of a Config: webhook sources need distinct path suffixes. */
module Validation {
  import opened Api

  /** The characters that Go's `unicode.IsSpace` accepts. */
  predicate IsSpace(c: char) {
    || '\t' <= c <= '\r'
    || c == ' '
    || c == '\U{85}' || c == '\U{A0}' || c == '\U{1680}'
    || '\U{2000}' <= c <= '\U{200A}'
    || c == '\U{2028}' || c == '\U{2029}' || c == '\U{202F}' || c == '\U{205F}' || c == '\U{3000}'
  }

  /** These are the 25 characters with the property White_Space of Unicode. */
  lemma SpacesExact(c: char)
    ensures IsSpace(c) <==>
            c in "\t\n\U{B}\U{C}\r \U{85}\U{A0}\U{1680}\U{2000}\U{2001}\U{2002}\U{2003}\U{2004}\U{2005}\U{2006}"
                 + "\U{2007}\U{2008}\U{2009}\U{200A}\U{2028}\U{2029}\U{202F}\U{205F}\U{3000}"
  {
  }

  /** The first position from `i` on that is not a space. */
  function SkipSpaces(s: string, i: nat): (lo: nat)
    requires i <= |s|
    ensures i <= lo <= |s|
    decreases |s| - i
  {
    if i < |s| && IsSpace(s[i]) then SkipSpaces(s, i + 1) else i
  }

  /** The last position down from `j`, but not below `lo`, that follows a character that is not a space. */
  function DropSpaces(s: string, lo: nat, j: nat): (hi: nat)
    requires lo <= j <= |s|
    ensures lo <= hi <= j
  {
    if lo < j && IsSpace(s[j - 1]) then DropSpaces(s, lo, j - 1) else j
  }

  function TrimSpace(s: string): string {
    var lo := SkipSpaces(s, 0);
    s[lo..DropSpaces(s, lo, |s|)]
  }

  lemma {:induction false} SkipsOnlySpaces(s: string, i: nat)
    requires i <= |s|
    ensures var lo := SkipSpaces(s, i);
            (forall k :: i <= k < lo ==> IsSpace(s[k])) && (lo < |s| ==> !IsSpace(s[lo]))
    decreases |s| - i
  {
    if i < |s| && IsSpace(s[i]) {
      SkipsOnlySpaces(s, i + 1);
    }
  }

  lemma {:induction false} DropsOnlySpaces(s: string, lo: nat, j: nat)
    requires lo <= j <= |s|
    ensures var hi := DropSpaces(s, lo, j);
            (forall k :: hi <= k < j ==> IsSpace(s[k])) && (lo < hi ==> !IsSpace(s[hi - 1]))
  {
    if lo < j && IsSpace(s[j - 1]) {
      DropsOnlySpaces(s, lo, j - 1);
    }
  }

  /** Trimming drops the spaces at both ends and nothing else. */
  lemma TrimSpaceExact(s: string) returns (lo: nat, hi: nat)
    ensures lo <= hi <= |s| && TrimSpace(s) == s[lo..hi]
    ensures forall i :: 0 <= i < lo || hi <= i < |s| ==> IsSpace(s[i])
    ensures lo < hi ==> !IsSpace(s[lo]) && !IsSpace(s[hi - 1])
  {
    lo := SkipSpaces(s, 0);
    hi := DropSpaces(s, lo, |s|);
    SkipsOnlySpaces(s, 0);
    DropsOnlySpaces(s, lo, |s|);
  }

  function Suffix(source: NotificationSource): string {
    TrimSpace(RawSuffix(source))
  }

  /** What the validator compares: the trimmed suffix of a webhook, nothing for another source. */
  function Label(source: NotificationSource): Option<string> {
    if IsWebhook(source) then Some(Suffix(source)) else None
  }

  function Labels(sources: seq<NotificationSource>): (labels: seq<Option<string>>)
    ensures |labels| == |sources|
    ensures forall i :: 0 <= i < |sources| ==> labels[i] == Label(sources[i])
  {
    seq(|sources|, i requires 0 <= i < |sources| => Label(sources[i]))
  }

  /** No two sources carry the same label. */
  predicate Distinct(labels: seq<Option<string>>) {
    forall i, j :: 0 <= i < j < |labels| && labels[i].Some? && labels[j].Some? ==> labels[i] != labels[j]
  }

  /** The specifications that validation accepts. */
  predicate DistinctSuffixes(sources: seq<NotificationSource>) {
    Distinct(Labels(sources))
  }

  /** A specification is accepted if and only if no two webhook sources have the same suffix but for
      spaces around it; a source without a webhook block has the empty one. */
  lemma AcceptedExact(sources: seq<NotificationSource>)
    ensures DistinctSuffixes(sources) <==>
            forall i, j :: 0 <= i < j < |sources| && sources[i].kind == "Webhook" && sources[j].kind == "Webhook"
                           ==> TrimSpace(RawSuffix(sources[i])) != TrimSpace(RawSuffix(sources[j]))
    ensures forall i :: 0 <= i < |sources| ==>
              RawSuffix(sources[i]) == if sources[i].webhook.None? then "" else sources[i].webhook.value.pathSuffix
  {
    var labels := Labels(sources);
    if !DistinctSuffixes(sources) {
      var i, j :| 0 <= i < j < |labels| && labels[i].Some? && labels[j].Some? && labels[i] == labels[j];
    } else {
      forall i, j | 0 <= i < j < |sources| && sources[i].kind == "Webhook" && sources[j].kind == "Webhook"
        ensures TrimSpace(RawSuffix(sources[i])) != TrimSpace(RawSuffix(sources[j]))
      {
        assert labels[i] != labels[j];
      }
    }
  }

  /** How many of the first `n` labels belong to webhooks. */
  function WebhookCount(labels: seq<Option<string>>, n: nat): nat
    requires n <= |labels|
  {
    if n == 0 then 0
    else WebhookCount(labels, n - 1) + if labels[n - 1].Some? then 1 else 0
  }

  /** The different suffixes among the first `n` labels. */
  function SuffixSet(labels: seq<Option<string>>, n: nat): set<string>
    requires n <= |labels|
  {
    set i | 0 <= i < n && labels[i].Some? :: labels[i].value
  }

  /** Source `i` is the first to use that suffix. */
  predicate IsFirst(labels: seq<Option<string>>, i: int, suffix: string) {
    0 <= i < |labels| && labels[i] == Some(suffix) && suffix !in SuffixSet(labels, i)
  }

  /** One reported clash: source `index` repeats the suffix of source `firstIndex`. */
  datatype Duplicate = Duplicate(firstIndex: int, index: int, suffix: string)

  predicate Justified(labels: seq<Option<string>>, d: Duplicate) {
    && IsFirst(labels, d.firstIndex, d.suffix)
    && d.firstIndex < d.index < |labels|
    && labels[d.index] == Some(d.suffix)
  }

  predicate AllJustified(labels: seq<Option<string>>, duplicates: seq<Duplicate>) {
    forall k :: 0 <= k < |duplicates| ==> Justified(labels, duplicates[k])
  }

  predicate InOrder(duplicates: seq<Duplicate>, n: int) {
    && (forall p, q :: 0 <= p < q < |duplicates| ==> duplicates[p].index < duplicates[q].index)
    && (forall p :: 0 <= p < |duplicates| ==> duplicates[p].index < n)
  }

  predicate Reports(duplicates: seq<Duplicate>, index: int) {
    exists k :: 0 <= k < |duplicates| && duplicates[k].index == index
  }

  /** Every repetition among the first `n` labels is reported. */
  predicate AllReported(labels: seq<Option<string>>, n: int, duplicates: seq<Duplicate>) {
    forall i {:trigger Reports(duplicates, i)} ::
      0 <= i < n && i < |labels| && labels[i].Some? && labels[i].value in SuffixSet(labels, i)
      ==> Reports(duplicates, i)
  }

  predicate SeenFirst(labels: seq<Option<string>>, n: int, seen: map<string, int>) {
    forall suffix :: suffix in seen ==> seen[suffix] < n && IsFirst(labels, seen[suffix], suffix)
  }

  /** What is known after the first `n` labels. */
  predicate Progress(labels: seq<Option<string>>, n: nat, seen: map<string, int>, duplicates: seq<Duplicate>) {
    && n <= |labels|
    && seen.Keys == SuffixSet(labels, n)
    && SeenFirst(labels, n, seen)
    && |duplicates| + |seen.Keys| == WebhookCount(labels, n)
    && InOrder(duplicates, n)
    && AllJustified(labels, duplicates)
    && AllReported(labels, n, duplicates)
  }

  method ValidateUniqueWebhookPathSuffixes(sources: seq<NotificationSource>) returns (duplicates: seq<Duplicate>)
    ensures duplicates == [] <==> DistinctSuffixes(sources)
    ensures var labels := Labels(sources);
            && |duplicates| == WebhookCount(labels, |labels|) - |SuffixSet(labels, |labels|)|
            && InOrder(duplicates, |labels|)
            && AllJustified(labels, duplicates)
            && AllReported(labels, |labels|, duplicates)
  {
    ghost var labels := Labels(sources);
    var seen: map<string, int> := map[];
    duplicates := [];
    var i := 0;
    while i < |sources|
      invariant i <= |sources|
      invariant Progress(labels, i, seen, duplicates)
    {
      if !IsWebhook(sources[i]) {
        Skipped(labels, i, seen, duplicates);
      } else {
        var suffix := Suffix(sources[i]);
        assert labels[i] == Some(suffix);
        if suffix in seen {
          Reported(labels, i, seen, duplicates);
          duplicates := duplicates + [Duplicate(seen[suffix], i, suffix)];
        } else {
          Recorded(labels, i, seen, duplicates);
          seen := seen[suffix := i];
        }
      }
      i := i + 1;
    }
    NoReportsIffDistinct(labels, duplicates);
  }

  lemma Skipped(labels: seq<Option<string>>, i: nat, seen: map<string, int>, duplicates: seq<Duplicate>)
    requires i < |labels| && labels[i].None?
    requires Progress(labels, i, seen, duplicates)
    ensures Progress(labels, i + 1, seen, duplicates)
  {
    ExtendSuffixSet(labels, i);
  }

  lemma Recorded(labels: seq<Option<string>>, i: nat, seen: map<string, int>, duplicates: seq<Duplicate>)
    requires i < |labels| && labels[i].Some?
    requires Progress(labels, i, seen, duplicates)
    requires labels[i].value !in seen
    ensures Progress(labels, i + 1, seen[labels[i].value := i], duplicates)
  {
    ExtendSuffixSet(labels, i);
    assert seen[labels[i].value := i].Keys == seen.Keys + {labels[i].value};
  }

  lemma Reported(labels: seq<Option<string>>, i: nat, seen: map<string, int>, duplicates: seq<Duplicate>)
    requires i < |labels| && labels[i].Some?
    requires Progress(labels, i, seen, duplicates)
    requires labels[i].value in seen
    ensures Progress(labels, i + 1, seen,
                     duplicates + [Duplicate(seen[labels[i].value], i, labels[i].value)])
  {
    ExtendSuffixSet(labels, i);
    ReportOne(labels, i, duplicates, Duplicate(seen[labels[i].value], i, labels[i].value));
  }

  lemma ReportOne(labels: seq<Option<string>>, i: nat, duplicates: seq<Duplicate>, d: Duplicate)
    requires AllReported(labels, i, duplicates)
    requires d.index == i
    ensures AllReported(labels, i + 1, duplicates + [d])
  {
    var more := duplicates + [d];
    assert more[|duplicates|] == d;
    forall j | Reports(duplicates, j) ensures Reports(more, j) {
      var k :| 0 <= k < |duplicates| && duplicates[k].index == j;
      assert more[k].index == j;
    }
  }

  lemma ExtendSuffixSet(labels: seq<Option<string>>, i: nat)
    requires i < |labels|
    ensures SuffixSet(labels, i + 1) == SuffixSet(labels, i) + if labels[i].Some? then {labels[i].value} else {}
  {
  }

  lemma NoReportsIffDistinct(labels: seq<Option<string>>, duplicates: seq<Duplicate>)
    requires AllJustified(labels, duplicates)
    requires AllReported(labels, |labels|, duplicates)
    ensures duplicates == [] <==> Distinct(labels)
  {
    if !Distinct(labels) {
      var p, q :| 0 <= p < q < |labels| && labels[p].Some? && labels[q].Some? && labels[p] == labels[q];
      assert labels[p].value in SuffixSet(labels, q);
      assert Reports(duplicates, q);
    }
    if duplicates != [] {
      var d := duplicates[0];
      assert Justified(labels, d);
      assert labels[d.firstIndex] == labels[d.index];
    }
  }

  /** Accepting a specification also separates the suffixes as they are written. */
  lemma AcceptedRawSuffixesDiffer(sources: seq<NotificationSource>, i: int, j: int)
    requires DistinctSuffixes(sources)
    requires 0 <= i < |sources| && 0 <= j < |sources| && i != j
    requires IsWebhook(sources[i]) && IsWebhook(sources[j])
    ensures RawSuffix(sources[i]) != RawSuffix(sources[j])
  {
    var labels := Labels(sources);
    assert labels[i] != labels[j];
  }
}
