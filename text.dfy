/**
  String helpers shared by the list pages: the whitespace word split used by
  `getShortSummary` and the sidebar word counts (`text.trim().split(/\s+/)`),
  ASCII lower-casing (`toLowerCase`), `includes`, `trim` and `Array.join`.
 */
module Text {
  import opened Common

  /** The characters matched by `\s`, restricted to ASCII. */
  predicate IsSpace(c: char) {
    c == ' ' || c == '\t' || c == '\n' || c == '\r' || c == '\U{000B}' || c == '\U{000C}'
  }

  /** A word: a non-empty run of non-space characters. */
  ghost predicate IsWord(w: string) {
    w != [] && forall i :: 0 <= i < |w| ==> !IsSpace(w[i])
  }

  function TrimStart(s: string): (r: string)
    ensures |r| <= |s| && r == s[|s| - |r|..]
    ensures r == [] || !IsSpace(r[0])
    ensures forall i :: 0 <= i < |s| - |r| ==> IsSpace(s[i])
  {
    if s != [] && IsSpace(s[0]) then TrimStart(s[1..]) else s
  }

  function TrimEnd(s: string): (r: string)
    ensures |r| <= |s| && r == s[..|r|]
    ensures r == [] || !IsSpace(r[|r| - 1])
    ensures forall i :: |r| <= i < |s| ==> IsSpace(s[i])
  {
    if s != [] && IsSpace(s[|s| - 1]) then TrimEnd(s[..|s| - 1]) else s
  }

  /** `String.prototype.trim`. */
  function Trim(s: string): (r: string)
    ensures r == [] || (!IsSpace(r[0]) && !IsSpace(r[|r| - 1]))
  {
    TrimEnd(TrimStart(s))
  }

  /** The string has a character that is not whitespace. */
  predicate HasNonSpace(s: string) {
    exists i :: 0 <= i < |s| && !IsSpace(s[i])
  }

  /** `s.trim()` is non-empty exactly when `s` has a non-whitespace character. */
  lemma TrimNonEmptyIff(s: string)
    ensures Trim(s) != "" <==> HasNonSpace(s)
  {
    var t := TrimStart(s);
    var r := TrimEnd(t);
    if r != "" {
      assert r[0] == t[0] == s[|s| - |t|];
    }
    if HasNonSpace(s) {
      var i :| 0 <= i < |s| && !IsSpace(s[i]);
      assert |s| - |t| <= i;
      var j := i - (|s| - |t|);
      assert t[j] == s[i];
      assert j < |r|;
    }
  }

  function LowerChar(c: char): char {
    if 'A' <= c <= 'Z' then (c as int + 32) as char else c
  }

  /** `String.prototype.toLowerCase`, on ASCII letters only. */
  function Lower(s: string): (r: string)
    ensures |r| == |s|
  {
    seq(|s|, i requires 0 <= i < |s| => LowerChar(s[i]))
  }

  /** `hay.includes(needle)`: the needle is a prefix of some suffix of the hay. */
  predicate Contains(hay: string, needle: string)
    decreases |hay|
  {
    needle <= hay || (hay != [] && Contains(hay[1..], needle))
  }

  /** A string contains nothing longer than itself. */
  lemma {:induction false} ContainsNoLonger(hay: string, needle: string)
    requires Contains(hay, needle)
    ensures |needle| <= |hay|
    decreases |hay|
  {
    if !(needle <= hay) {
      ContainsNoLonger(hay[1..], needle);
    }
  }

  /** Only the empty string is contained in the empty string. */
  lemma ContainedInEmpty(needle: string)
    ensures Contains("", needle) <==> needle == ""
  {
    assert needle <= "" <==> needle == "";
  }

  /** `field?.toLowerCase() || ""`: an absent field searches as the empty string. */
  function Field(x: Option<string>): (r: string)
    ensures x.None? ==> r == ""
    ensures x.Some? ==> |r| == |x.value|
  {
    if x.Some? then Lower(x.value) else ""
  }

  /** `needle` occurs in `hay` starting at index `i`. */
  ghost predicate OccursAt(hay: string, needle: string, i: int) {
    0 <= i <= |hay| - |needle| && hay[i..i + |needle|] == needle
  }

  /** `Contains` agrees with the positional definition of a substring. */
  lemma {:induction false} ContainsIffOccursAt(hay: string, needle: string)
    ensures Contains(hay, needle) <==> exists i :: OccursAt(hay, needle, i)
    decreases |hay|
  {
    if needle <= hay {
      assert OccursAt(hay, needle, 0);
    } else if hay == [] {
    } else {
      ContainsIffOccursAt(hay[1..], needle);
      var tail := hay[1..];
      if exists i :: OccursAt(tail, needle, i) {
        var i :| OccursAt(tail, needle, i);
        assert hay[i + 1..i + 1 + |needle|] == tail[i..i + |needle|];
        assert OccursAt(hay, needle, i + 1);
      }
      if exists i :: OccursAt(hay, needle, i) {
        var i :| OccursAt(hay, needle, i);
        if i == 0 {
          assert false;
        } else {
          assert tail[i - 1..i - 1 + |needle|] == hay[i..i + |needle|];
          assert OccursAt(tail, needle, i - 1);
        }
      }
    }
  }

  /** The longest prefix of `s` without whitespace. */
  function Run(s: string): (w: string)
    ensures w <= s
    ensures forall i :: 0 <= i < |w| ==> !IsSpace(w[i])
    ensures |w| == |s| || IsSpace(s[|w|])
    ensures s != [] && !IsSpace(s[0]) ==> |w| >= 1
  {
    if s == [] || IsSpace(s[0]) then [] else [s[0]] + Run(s[1..])
  }

  /** The maximal runs of non-space characters, left to right. */
  function Tokens(s: string): (ws: seq<string>)
    decreases |s|
  {
    if s == [] then []
    else if IsSpace(s[0]) then Tokens(s[1..])
    else var w := Run(s); [w] + Tokens(s[|w|..])
  }

  /**
    `s.trim().split(/\s+/)`: the words of `s`, except that a string with no
    word splits into one empty string, as in JavaScript.
   */
  function Words(s: string): (ws: seq<string>)
    ensures |ws| >= 1
  {
    var t := Tokens(s);
    if t == [] then [""] else t
  }

  /** `ws.join(sep)`. */
  function Join(ws: seq<string>, sep: string): string {
    if ws == [] then ""
    else if |ws| == 1 then ws[0]
    else ws[0] + sep + Join(ws[1..], sep)
  }

  const SUMMARY_WORDS: nat := 40

  /**
    `getShortSummary`: the text unchanged when it has at most 40 words,
    otherwise its first 40 words joined by single spaces, followed by "...".
   */
  function ShortSummary(text: string): string {
    var ws := Words(text);
    if |ws| <= SUMMARY_WORDS then text else Join(ws[..SUMMARY_WORDS], " ") + "..."
  }

  lemma {:induction false} TokensAreWords(s: string)
    ensures forall k :: 0 <= k < |Tokens(s)| ==> IsWord(Tokens(s)[k])
    decreases |s|
  {
    if s == [] {
    } else if IsSpace(s[0]) {
      TokensAreWords(s[1..]);
    } else {
      var w := Run(s);
      TokensAreWords(s[|w|..]);
    }
  }

  lemma {:induction false} RunOfWord(u: string, t: string)
    requires forall i :: 0 <= i < |u| ==> !IsSpace(u[i])
    requires t == [] || IsSpace(t[0])
    ensures Run(u + t) == u
    decreases |u|
  {
    if u == [] {
      assert u + t == t;
    } else {
      assert (u + t)[1..] == u[1..] + t;
      RunOfWord(u[1..], t);
    }
  }

  /** A word with a space-free suffix is a single token. */
  lemma TokensOfWord(w: string, x: string)
    requires IsWord(w)
    requires forall i :: 0 <= i < |x| ==> !IsSpace(x[i])
    ensures Tokens(w + x) == [w + x]
  {
    var s := w + x;
    assert forall i :: 0 <= i < |s| ==> !IsSpace(s[i]) by {
      forall i | 0 <= i < |s| ensures !IsSpace(s[i]) {
        if i < |w| { assert s[i] == w[i]; } else { assert s[i] == x[i - |w|]; }
      }
    }
    RunOfWord(s, []);
    assert s + [] == s;
    assert s[|s|..] == [];
  }

  /** A word followed by a space and more text splits off that word first. */
  lemma TokensAfterWord(w: string, y: string)
    requires IsWord(w)
    ensures Tokens(w + " " + y) == [w] + Tokens(y)
  {
    var s := w + (" " + y);
    assert w + " " + y == s;
    RunOfWord(w, " " + y);
    assert s[0] == w[0];
    assert s[|w|..] == " " + y;
    assert (" " + y)[1..] == y;
  }

  /** Joining two or more words puts the first one, a space, and the join of the rest. */
  lemma JoinCons(ws: seq<string>, x: string)
    requires |ws| >= 2
    ensures Join(ws, " ") + x == ws[0] + " " + (Join(ws[1..], " ") + x)
  {
  }

  /** Putting a word in front of a split whose last token carries the suffix. */
  lemma ConsTokens(ws: seq<string>, x: string, tail: seq<string>)
    requires |ws| >= 2
    requires tail == ws[1..][..|ws| - 2] + [ws[1..][|ws| - 2] + x]
    ensures [ws[0]] + tail == ws[..|ws| - 1] + [ws[|ws| - 1] + x]
  {
    assert ws[..|ws| - 1] == [ws[0]] + ws[1..][..|ws| - 2];
  }

  /**
    Splitting a space-joined list of words, with a space-free suffix glued to
    the last word, gives the words back (the suffix stays on the last one).
   */
  lemma {:induction false} TokensOfJoin(ws: seq<string>, x: string)
    requires ws != []
    requires forall k :: 0 <= k < |ws| ==> IsWord(ws[k])
    requires forall i :: 0 <= i < |x| ==> !IsSpace(x[i])
    ensures Tokens(Join(ws, " ") + x) == ws[..|ws| - 1] + [ws[|ws| - 1] + x]
    decreases |ws|
  {
    if |ws| == 1 {
      TokensOfWord(ws[0], x);
    } else {
      var rest := ws[1..];
      assert IsWord(ws[0]);
      assert forall k :: 0 <= k < |rest| ==> IsWord(rest[k]) by {
        forall k | 0 <= k < |rest| ensures IsWord(rest[k]) {
          assert rest[k] == ws[k + 1];
        }
      }
      var y := Join(rest, " ") + x;
      JoinCons(ws, x);
      TokensAfterWord(ws[0], y);
      TokensOfJoin(rest, x);
      ConsTokens(ws, x, Tokens(y));
    }
  }

  /** The contract of `getShortSummary`. */
  lemma ShortSummaryTruncates(text: string)
    ensures |Words(text)| <= SUMMARY_WORDS ==> ShortSummary(text) == text
    ensures |Words(text)| > SUMMARY_WORDS ==>
              var r := ShortSummary(text);
              && r == Join(Words(text)[..SUMMARY_WORDS], " ") + "..."
              && Words(r[..|r| - 3]) == Words(text)[..SUMMARY_WORDS]
  {
    var ws := Words(text);
    if |ws| > SUMMARY_WORDS {
      var head := ws[..SUMMARY_WORDS];
      TokensAreWords(text);
      assert forall k :: 0 <= k < |head| ==> IsWord(head[k]) by {
        forall k | 0 <= k < |head| ensures IsWord(head[k]) {
          assert head[k] == Tokens(text)[k];
        }
      }
      var j := Join(head, " ");
      var r := j + "...";
      assert r[..|r| - 3] == j;
      TokensOfJoin(head, "");
      assert j + "" == j;
      assert head[|head| - 1] + "" == head[|head| - 1];
      assert head[..|head| - 1] + [head[|head| - 1]] == head;
    }
  }

  /** Shortening an already shortened summary changes nothing. */
  lemma ShortSummaryIdempotent(text: string)
    ensures ShortSummary(ShortSummary(text)) == ShortSummary(text)
  {
    var ws := Words(text);
    if |ws| > SUMMARY_WORDS {
      var head := ws[..SUMMARY_WORDS];
      TokensAreWords(text);
      assert forall k :: 0 <= k < |head| ==> IsWord(head[k]) by {
        forall k | 0 <= k < |head| ensures IsWord(head[k]) {
          assert head[k] == Tokens(text)[k];
        }
      }
      var dots := "...";
      assert forall i :: 0 <= i < |dots| ==> !IsSpace(dots[i]);
      TokensOfJoin(head, dots);
      var r := Join(head, " ") + dots;
      assert |Tokens(r)| == SUMMARY_WORDS;
      assert Words(r) == Tokens(r);
    }
  }
}
