/**
  The sidebar insights of the two public pages: counters keyed by category
  and by author, the entry with the largest count, the most recent post by
  a timestamp, and the word statistics of summaries. The loops that build
  them live with each page; this module holds the specifications the loops
  are proved against and the facts about them.
 */
module Insights {
  import opened Common
  import opened Text

  /** One document of the snapshot; an absent field is `None`. Timestamps are milliseconds. */
  datatype SidebarDoc = SidebarDoc(
    title: Option<string>, category: Option<string>, author: Option<string>, summary: Option<string>,
    dateCreated: Option<int>, dateModified: Option<int>)

  /**
    A counter object such as `categoryCount`: its keys in insertion order
    (the order `Object.entries` lists them) and the count of each.
   */
  datatype Tally = Tally(keys: seq<string>, counts: map<string, nat>)

  /** `counter[x] || 0`. */
  function Count(t: Tally, x: string): nat {
    if x in t.counts then t.counts[x] else 0
  }

  ghost predicate Distinct(keys: seq<string>) {
    forall i, j :: 0 <= i < j < |keys| ==> keys[i] != keys[j]
  }

  /** The keys are listed once each, and they are exactly the counted labels. */
  ghost predicate WellFormed(t: Tally) {
    Distinct(t.keys) && forall x :: x in t.counts <==> x in t.keys
  }

  /** `counter[key] = (counter[key] || 0) + 1`: a new key is appended to the keys. */
  function Bump(t: Tally, key: string): (r: Tally)
    ensures Count(r, key) == Count(t, key) + 1
    ensures forall x :: x != key ==> Count(r, x) == Count(t, x)
    ensures WellFormed(t) ==> WellFormed(r)
  {
    if key in t.counts then Tally(t.keys, t.counts[key := t.counts[key] + 1])
    else Tally(t.keys + [key], t.counts[key := 1])
  }

  /** The counter after the `forEach` has counted `labels` in order. */
  function TallyOf(labels: seq<string>): Tally
    decreases |labels|
  {
    if labels == [] then Tally([], map[])
    else Bump(TallyOf(labels[..|labels| - 1]), labels[|labels| - 1])
  }

  /** Each label is counted exactly as often as it occurs, and only labels that occur are keys. */
  lemma {:induction false} TallyCounts(labels: seq<string>, x: string)
    ensures WellFormed(TallyOf(labels))
    ensures Count(TallyOf(labels), x) == multiset(labels)[x]
    ensures x in TallyOf(labels).keys <==> x in labels
    decreases |labels|
  {
    if labels != [] {
      var init, last := labels[..|labels| - 1], labels[|labels| - 1];
      TallyCounts(init, x);
      assert labels == init + [last];
      assert multiset(labels) == multiset(init) + multiset{last};
      if x in labels && x != last {
        var k :| 0 <= k < |labels| && labels[k] == x;
        assert init[k] == x;
      }
    }
  }

  /** The sum of the counts over `keys`. */
  function Total(t: Tally, keys: seq<string>): nat
    decreases |keys|
  {
    if keys == [] then 0 else Total(t, keys[..|keys| - 1]) + Count(t, keys[|keys| - 1])
  }

  /** Two counters that agree on every key of `keys` have the same total over it. */
  lemma {:induction false} TotalAgrees(t: Tally, u: Tally, keys: seq<string>)
    requires forall x :: x in keys ==> Count(t, x) == Count(u, x)
    ensures Total(t, keys) == Total(u, keys)
    decreases |keys|
  {
    if keys != [] {
      TotalAgrees(t, u, keys[..|keys| - 1]);
    }
  }

  /** Raising the count of one key listed once raises the total by one. */
  lemma {:induction false} TotalBumped(t: Tally, u: Tally, keys: seq<string>, key: string)
    requires Distinct(keys) && key in keys
    requires Count(u, key) == Count(t, key) + 1
    requires forall x :: x != key ==> Count(u, x) == Count(t, x)
    ensures Total(u, keys) == Total(t, keys) + 1
    decreases |keys|
  {
    var init := keys[..|keys| - 1];
    if keys[|keys| - 1] == key {
      assert key !in init;
      TotalAgrees(t, u, init);
    } else {
      var k :| 0 <= k < |keys| && keys[k] == key;
      assert init[k] == key;
      TotalBumped(t, u, init, key);
    }
  }

  /** Every document adds one to exactly one counter: the counts sum to the number of documents. */
  lemma {:induction false} TallyTotal(labels: seq<string>)
    ensures Total(TallyOf(labels), TallyOf(labels).keys) == |labels|
    decreases |labels|
  {
    if labels != [] {
      var init, last := labels[..|labels| - 1], labels[|labels| - 1];
      var t := TallyOf(init);
      var u := TallyOf(labels);
      TallyTotal(init);
      TallyCounts(init, last);
      if last in t.counts {
        TotalBumped(t, u, t.keys, last);
      } else {
        assert u.keys[..|u.keys| - 1] == t.keys;
        TotalAgrees(t, u, t.keys);
      }
    }
  }

  /** The index of the first key with the largest count. */
  function TopIndex(t: Tally, keys: seq<string>): (i: nat)
    requires keys != []
    ensures i < |keys|
    ensures forall j :: 0 <= j < |keys| ==> Count(t, keys[j]) <= Count(t, keys[i])
    ensures forall j :: 0 <= j < i ==> Count(t, keys[j]) < Count(t, keys[i])
    decreases |keys|
  {
    if |keys| == 1 then 0
    else
      var i := TopIndex(t, keys[..|keys| - 1]);
      if Count(t, keys[|keys| - 1]) > Count(t, keys[i]) then |keys| - 1 else i
  }

  /**
    `Object.entries(counter).sort((a, b) => b[1] - a[1])[0] || ["N/A", 0]`:
    the sort is stable, so the entry is the earliest key with the largest
    count.
   */
  function Top(t: Tally): (r: (string, nat))
    ensures t.keys == [] ==> r == ("N/A", 0)
    ensures t.keys != [] ==> r.0 in t.keys && r.1 == Count(t, r.0)
    ensures forall k :: 0 <= k < |t.keys| ==> Count(t, t.keys[k]) <= r.1
    ensures t.keys != [] ==>
              exists i :: 0 <= i < |t.keys| && t.keys[i] == r.0
                && forall j :: 0 <= j < i ==> Count(t, t.keys[j]) < r.1
  {
    if t.keys == [] then ("N/A", 0)
    else
      var i := TopIndex(t, t.keys);
      (t.keys[i], Count(t, t.keys[i]))
  }

  /**
    The top entry of a counted snapshot is a label that occurs in it, with
    its number of occurrences, and no label occurs more often.
   */
  lemma TopOfTally(labels: seq<string>)
    ensures labels == [] ==> Top(TallyOf(labels)) == ("N/A", 0)
    ensures labels != [] ==>
              var top := Top(TallyOf(labels));
              top.0 in labels && top.1 == multiset(labels)[top.0] && top.1 >= 1
    ensures forall x :: x in labels ==> multiset(labels)[x] <= Top(TallyOf(labels)).1
  {
    var t := TallyOf(labels);
    var top := Top(t);
    if labels != [] {
      TallyCounts(labels, top.0);
      TallyCounts(labels, labels[0]);
    }
    forall x | x in labels
      ensures multiset(labels)[x] <= top.1
    {
      TallyCounts(labels, x);
      var k :| 0 <= k < |t.keys| && t.keys[k] == x;
    }
  }

  /** A post remembered by the sidebar: its title and timestamp. */
  datatype Stamp = Stamp(title: string, date: Option<int>)

  /** The initial `{ title: "N/A", dateCreated: null }`. */
  const NO_POST := Stamp("N/A", None)

  /** The candidate a document offers: `data.title || "Untitled"` with its timestamp. */
  function Candidate(title: Option<string>, date: Option<int>): Stamp {
    Stamp(OrDefault(title, "Untitled"), date)
  }

  /**
    One step of the latest-post selection. With `dated` the document must
    carry a timestamp (`data.date && (...)`); without it, a held post with
    no timestamp is replaced by any document. Otherwise only a strictly
    later timestamp replaces the held post.
   */
  function Newer(held: Stamp, c: Stamp, dated: bool): (r: Stamp)
    ensures r == held || r == c
    ensures held.date.Some? ==> (r == c <==> c.date.Some? && c.date.value > held.date.value) || c == held
    ensures held.date.None? ==> (r == c <==> !dated || c.date.Some?) || c == held
  {
    var replace :=
      if held.date.None? then !dated || c.date.Some?
      else c.date.Some? && c.date.value > held.date.value;
    if replace then c else held
  }

  /** The post held after the `forEach` has offered `cs` in order. */
  function LatestOf(cs: seq<Stamp>, dated: bool): Stamp
    decreases |cs|
  {
    if cs == [] then NO_POST else Newer(LatestOf(cs[..|cs| - 1], dated), cs[|cs| - 1], dated)
  }

  /** Some candidate carries a timestamp. */
  ghost predicate AnyDated(cs: seq<Stamp>) {
    exists i :: 0 <= i < |cs| && cs[i].date.Some?
  }

  /** Only the last candidate can carry a timestamp. */
  lemma OnlyLastDated(cs: seq<Stamp>)
    requires AnyDated(cs) && !AnyDated(cs[..|cs| - 1])
    ensures cs[|cs| - 1].date.Some?
    ensures forall j :: 0 <= j < |cs| - 1 ==> cs[j].date.None?
  {
    var init := cs[..|cs| - 1];
    forall j | 0 <= j < |cs| - 1
      ensures cs[j].date.None?
    {
      assert init[j] == cs[j];
    }
  }

  /** When some candidate has a timestamp, the held post carries the largest one. */
  lemma {:induction false} LatestIsMax(cs: seq<Stamp>, dated: bool)
    requires AnyDated(cs)
    ensures LatestOf(cs, dated).date.Some?
    ensures forall i :: 0 <= i < |cs| && cs[i].date.Some? ==> cs[i].date.value <= LatestOf(cs, dated).date.value
    decreases |cs|
  {
    var init := cs[..|cs| - 1];
    if AnyDated(init) {
      LatestIsMax(init, dated);
      forall i | 0 <= i < |init|
        ensures cs[i] == init[i]
      {
      }
    } else {
      OnlyLastDated(cs);
      NoDateKeepsUndated(init, dated);
    }
  }

  /** Every candidate before position `i` carries no timestamp or an earlier one than `r`. */
  ghost predicate OlderBefore(cs: seq<Stamp>, i: nat, r: Stamp)
    requires i <= |cs| && r.date.Some?
  {
    forall j :: 0 <= j < i && cs[j].date.Some? ==> cs[j].date.value < r.date.value
  }

  /** When some candidate has a timestamp, the held post is the first candidate with the largest one. */
  lemma {:induction false} LatestIsFirst(cs: seq<Stamp>, dated: bool)
    requires AnyDated(cs)
    ensures LatestOf(cs, dated).date.Some?
    ensures exists i :: 0 <= i < |cs| && cs[i] == LatestOf(cs, dated) && OlderBefore(cs, i, LatestOf(cs, dated))
    decreases |cs|
  {
    LatestIsMax(cs, dated);
    var init, last := cs[..|cs| - 1], cs[|cs| - 1];
    var r := LatestOf(cs, dated);
    if AnyDated(init) {
      LatestIsFirst(init, dated);
      var h := LatestOf(init, dated);
      var i :| 0 <= i < |init| && init[i] == h && OlderBefore(init, i, h);
      if r == h {
        assert cs[i] == r;
        assert OlderBefore(cs, i, r) by {
          forall j | 0 <= j < i
            ensures cs[j] == init[j]
          {
          }
        }
      } else {
        LatestIsMax(init, dated);
        assert cs[|cs| - 1] == r;
        assert OlderBefore(cs, |cs| - 1, r) by {
          forall j | 0 <= j < |cs| - 1
            ensures cs[j] == init[j]
          {
          }
        }
      }
    } else {
      OnlyLastDated(cs);
      NoDateKeepsUndated(init, dated);
      assert cs[|cs| - 1] == r;
      assert OlderBefore(cs, |cs| - 1, r);
    }
  }

  /**
    When some candidate has a timestamp, the held post carries the largest
    timestamp, and it is the first candidate that has it.
   */
  lemma LatestIsNewest(cs: seq<Stamp>, dated: bool)
    requires AnyDated(cs)
    ensures var r := LatestOf(cs, dated);
            && r.date.Some?
            && (forall i :: 0 <= i < |cs| && cs[i].date.Some? ==> cs[i].date.value <= r.date.value)
            && exists i :: 0 <= i < |cs| && cs[i] == r
                 && forall j :: 0 <= j < i && cs[j].date.Some? ==> cs[j].date.value < r.date.value
  {
    LatestIsMax(cs, dated);
    LatestIsFirst(cs, dated);
  }

  /**
    With no timestamp among the candidates the held post has none either:
    it is the initial one when a timestamp is required, and otherwise the
    last candidate, since an undated post is replaced by any document.
   */
  lemma {:induction false} NoDateKeepsUndated(cs: seq<Stamp>, dated: bool)
    requires !AnyDated(cs)
    ensures LatestOf(cs, dated).date.None?
    ensures dated || cs == [] ==> LatestOf(cs, dated) == NO_POST
    ensures !dated && cs != [] ==> LatestOf(cs, dated) == cs[|cs| - 1]
    decreases |cs|
  {
    if cs != [] {
      var init := cs[..|cs| - 1];
      assert !AnyDated(init) by {
        forall i | 0 <= i < |init|
          ensures init[i].date.None?
        {
          assert cs[i] == init[i];
        }
      }
      NoDateKeepsUndated(init, dated);
    }
  }

  /** `(summary || "").trim().split(/\s+/).length`. */
  function WordCount(summary: Option<string>): (n: nat)
    ensures n >= 1
  {
    |Words(OrDefault(summary, ""))|
  }

  /**
    `totalWords` and `postsWithContent` after the `forEach`: only a summary
    of more than one word counts, with all its words.
   */
  function ContentStats(summaries: seq<Option<string>>): (r: (nat, nat))
    ensures r.1 <= |summaries|
    ensures 2 * r.1 <= r.0
    ensures r.0 == 0 <==> r.1 == 0
    decreases |summaries|
  {
    if summaries == [] then (0, 0)
    else
      var prev := ContentStats(summaries[..|summaries| - 1]);
      var n := WordCount(summaries[|summaries| - 1]);
      if n > 1 then (prev.0 + n, prev.1 + 1) else prev
  }

  /** The category labels of a snapshot, `data.category || "Uncategorized"`. */
  function Categories(docs: seq<SidebarDoc>): (r: seq<string>)
    ensures |r| == |docs|
  {
    seq(|docs|, i requires 0 <= i < |docs| => OrDefault(docs[i].category, "Uncategorized"))
  }

  /** The author labels of a snapshot, `data.author || "Unknown"`. */
  function Authors(docs: seq<SidebarDoc>): (r: seq<string>)
    ensures |r| == |docs|
  {
    seq(|docs|, i requires 0 <= i < |docs| => OrDefault(docs[i].author, "Unknown"))
  }

  /** The creation-time candidates of a snapshot. */
  function Created(docs: seq<SidebarDoc>): (r: seq<Stamp>)
    ensures |r| == |docs|
  {
    seq(|docs|, i requires 0 <= i < |docs| => Candidate(docs[i].title, docs[i].dateCreated))
  }

  /** The modification-time candidates of a snapshot. */
  function Modified(docs: seq<SidebarDoc>): (r: seq<Stamp>)
    ensures |r| == |docs|
  {
    seq(|docs|, i requires 0 <= i < |docs| => Candidate(docs[i].title, docs[i].dateModified))
  }

  function Summaries(docs: seq<SidebarDoc>): (r: seq<Option<string>>)
    ensures |r| == |docs|
  {
    seq(|docs|, i requires 0 <= i < |docs| => docs[i].summary)
  }

  /** The labels of a prefix of the snapshot are the prefix of its labels. */
  lemma LabelsOfPrefix(docs: seq<SidebarDoc>, i: nat)
    requires i <= |docs|
    ensures Categories(docs[..i]) == Categories(docs)[..i] && Authors(docs[..i]) == Authors(docs)[..i]
    ensures Created(docs[..i]) == Created(docs)[..i] && Modified(docs[..i]) == Modified(docs)[..i]
    ensures Summaries(docs[..i]) == Summaries(docs)[..i]
  {
  }
}
