/** add-query-params-to-url.js: append `key=value` pairs to a URL. The
    separator is '&' when the URL already matches `/\?\w+\=/` and '?'
    otherwise; the pairs follow in `Object.keys` order, joined by '&'. Keys and
    values are concatenated as they are, without escaping. */
module QueryParams {

  /** `\w`: a letter, a digit or '_'. */
  predicate IsWordChar(c: char)
  {
    ('a' <= c <= 'z') || ('A' <= c <= 'Z') || ('0' <= c <= '9') || c == '_'
  }

  /** `/\?\w+\=/` matches `url` from index i to index j: '?' at i, '=' at j,
      and one or more word characters between. */
  ghost predicate MatchAt(url: string, i: int, j: int)
  {
    0 <= i && i + 1 < j < |url| && url[i] == '?' && url[j] == '=' &&
    forall k :: i < k < j ==> IsWordChar(url[k])
  }

  /** The end of the run of word characters that starts at k. */
  function WordRunEnd(url: string, k: nat): (e: nat)
    requires k <= |url|
    ensures k <= e <= |url|
    ensures forall m :: k <= m < e ==> IsWordChar(url[m])
    ensures e < |url| ==> !IsWordChar(url[e])
    decreases |url| - k
  {
    if k == |url| || !IsWordChar(url[k]) then k else WordRunEnd(url, k + 1)
  }

  /** A run of word characters from k to a non-word character at j ends at j. */
  lemma {:induction false} WordRunEndAt(url: string, k: nat, j: nat)
    requires k <= j < |url| && !IsWordChar(url[j])
    requires forall m :: k <= m < j ==> IsWordChar(url[m])
    ensures WordRunEnd(url, k) == j
    decreases j - k
  {
    if k < j {
      WordRunEndAt(url, k + 1, j);
    }
  }

  /** The regular expression matches with its '?' at index i. */
  predicate MatchesHere(url: string, i: nat)
    requires i < |url|
  {
    url[i] == '?' &&
    var e := WordRunEnd(url, i + 1);
    e > i + 1 && e < |url| && url[e] == '='
  }

  lemma MatchesHereIff(url: string, i: nat)
    requires i < |url|
    ensures MatchesHere(url, i) <==> exists j :: MatchAt(url, i, j)
  {
    var e := WordRunEnd(url, i + 1);
    if MatchesHere(url, i) {
      assert MatchAt(url, i, e);
    }
    if exists j :: MatchAt(url, i, j) {
      var j :| MatchAt(url, i, j);
      WordRunEndAt(url, i + 1, j);
    }
  }

  /** Whether the regular expression matches with its '?' at index i or later. */
  function MatchesFrom(url: string, i: nat): (r: bool)
    requires i <= |url|
    ensures r <==> exists a, j :: i <= a && MatchAt(url, a, j)
    decreases |url| - i
  {
    if i == |url| then false
    else
      MatchesHereIff(url, i);
      var here := MatchesHere(url, i);
      var later := MatchesFrom(url, i + 1);
      assert here ==> exists a, j :: i <= a && MatchAt(url, a, j) by {
        if here {
          var j :| MatchAt(url, i, j);
          assert i <= i && MatchAt(url, i, j);
        }
      }
      assert (exists a, j :: i <= a && MatchAt(url, a, j)) ==> here || later by {
        if exists a, j :: i <= a && MatchAt(url, a, j) {
          var a, j :| i <= a && MatchAt(url, a, j);
          if a == i {
            assert exists j' :: MatchAt(url, i, j');
          } else {
            assert i + 1 <= a && MatchAt(url, a, j);
          }
        }
      }
      here || later
  }

  /** `url.match(/\?\w+\=/) ? '&' : '?'`. */
  function Separator(url: string): (c: char)
    ensures c == '&' <==> exists i, j :: MatchAt(url, i, j)
    ensures c == '?' <==> !exists i, j :: MatchAt(url, i, j)
  {
    assert (exists a, j :: 0 <= a && MatchAt(url, a, j)) <==> exists i, j :: MatchAt(url, i, j);
    if MatchesFrom(url, 0) then '&' else '?'
  }

  /** One parameter as it is appended: `key+'='+params[key]`. */
  function Pair(p: (string, string)): string
  {
    p.0 + "=" + p.1
  }

  /** The parameters joined by '&', with no '&' after the last one. */
  function QueryString(params: seq<(string, string)>): string
  {
    if |params| == 0 then ""
    else if |params| == 1 then Pair(params[0])
    else QueryString(params[..|params| - 1]) + "&" + Pair(params[|params| - 1])
  }

  /** The exported function. `params` lists the parameters in the order
      `Object.keys(params)` yields them. */
  method AddQueryParamsToUrl(url: string, params: seq<(string, string)>) returns (r: string)
    ensures r == url + [Separator(url)] + QueryString(params)
  {
    r := url + [if MatchesFrom(url, 0) then '&' else '?'];
    ghost var base := r;
    var n := |params|;
    for i := 0 to n
      invariant r == base + QueryString(params[..i]) + (if 0 < i < n then "&" else "")
    {
      QueryStringSnoc(base, params, i);
      var key := params[i].0;
      r := r + (key + "=" + params[i].1);
      if i != n - 1 {
        r := r + "&";
      }
    }
    assert params[..n] == params;
  }

  /** One more parameter extends the query by '&' (unless it is the first)
      and its pair. */
  lemma QueryStringSnoc(base: string, params: seq<(string, string)>, i: nat)
    requires i < |params|
    ensures base + QueryString(params[..i]) + (if 0 < i then "&" else "") + Pair(params[i]) ==
      base + QueryString(params[..i + 1])
  {
    assert params[..i + 1][..i] == params[..i];
  }

  /** The sum of |key| + 1 + |value| over the parameters. */
  function PairsLength(params: seq<(string, string)>): nat
  {
    if params == [] then 0
    else PairsLength(params[..|params| - 1]) + |Pair(params[|params| - 1])|
  }

  /** With n >= 1 parameters the query adds |url| + 1 + the pairs' lengths +
      (n - 1) separators; with none it adds only the separator. */
  lemma {:induction false} ResultLength(url: string, params: seq<(string, string)>)
    ensures |params| == 0 ==> url + [Separator(url)] + QueryString(params) == url + [Separator(url)]
    ensures |params| >= 1 ==>
      (|url + [Separator(url)] + QueryString(params)| == |url| + 1 + PairsLength(params) + (|params| - 1))
  {
    QueryStringLength(params);
  }

  lemma {:induction false} QueryStringLength(params: seq<(string, string)>)
    ensures |params| >= 1 ==> |QueryString(params)| == PairsLength(params) + |params| - 1
    decreases |params|
  {
    if |params| == 1 {
      assert params[..0] == [];
    } else if |params| > 1 {
      QueryStringLength(params[..|params| - 1]);
    }
  }

  /** JavaScript's `s.split(c)`: the pieces between occurrences of c. */
  function Split(s: string, c: char): (r: seq<string>)
    ensures |r| >= 1
    decreases |s|
  {
    if s == [] then [""]
    else
      var init := Split(s[..|s| - 1], c);
      if s[|s| - 1] == c then init + [""]
      else init[..|init| - 1] + [init[|init| - 1] + [s[|s| - 1]]]
  }

  lemma {:induction false} SplitWithout(s: string, c: char)
    requires c !in s
    ensures Split(s, c) == [s]
    decreases |s|
  {
    if s != [] {
      SplitWithout(s[..|s| - 1], c);
      assert s[..|s| - 1] + [s[|s| - 1]] == s;
    }
  }

  /** Split on a string with one more character at its end. */
  lemma SplitSnoc(s: string, ch: char, c: char)
    ensures Split(s + [ch], c) ==
      var init := Split(s, c);
      if ch == c then init + [""] else init[..|init| - 1] + [init[|init| - 1] + [ch]]
  {
    assert (s + [ch])[..|s|] == s;
  }

  /** Extending the last piece of `left + right` extends the last piece of `right`. */
  lemma ExtendLastPiece(left: seq<string>, right: seq<string>, ch: char)
    requires |right| >= 1
    ensures var init := left + right;
      init[..|init| - 1] + [init[|init| - 1] + [ch]] == left + (right[..|right| - 1] + [right[|right| - 1] + [ch]])
  {
    var init := left + right;
    assert init[..|init| - 1] == left + right[..|right| - 1];
  }

  lemma {:induction false} SplitJoin(x: string, y: string, c: char)
    ensures Split(x + [c] + y, c) == Split(x, c) + Split(y, c)
    decreases |y|
  {
    if y == [] {
      assert x + [c] + y == x + [c];
      SplitSnoc(x, c, c);
    } else {
      var y', ch := y[..|y| - 1], y[|y| - 1];
      var s' := x + [c] + y';
      assert y == y' + [ch];
      assert x + [c] + y == s' + [ch];
      SplitJoin(x, y', c);
      var left, right := Split(x, c), Split(y', c);
      SplitSnoc(s', ch, c);
      SplitSnoc(y', ch, c);
      if ch == c {
        assert (left + right) + [""] == left + (right + [""]);
      } else {
        ExtendLastPiece(left, right, ch);
      }
    }
  }

  /** `key=value` read back at its first '='. */
  function Cut(segment: string): (r: (string, string))
  {
    if segment == [] then ("", "")
    else if segment[0] == '=' then ("", segment[1..])
    else var rest := Cut(segment[1..]); ([segment[0]] + rest.0, rest.1)
  }

  lemma {:induction false} CutPair(p: (string, string))
    requires '=' !in p.0
    ensures Cut(Pair(p)) == p
    decreases |p.0|
  {
    if p.0 != [] {
      var tail := (p.0[1..], p.1);
      assert '=' !in tail.0 by {
        forall k | 0 <= k < |tail.0| ensures tail.0[k] != '=' {
          assert tail.0[k] == p.0[k + 1];
        }
      }
      CutPair(tail);
      assert Pair(p)[0] == p.0[0];
      assert Pair(p)[1..] == Pair(tail);
      assert [p.0[0]] + tail.0 == p.0;
    } else {
      assert Pair(p) == "=" + p.1;
    }
  }

  function CutAll(segments: seq<string>): (r: seq<(string, string)>)
    ensures |r| == |segments|
  {
    if segments == [] then [] else [Cut(segments[0])] + CutAll(segments[1..])
  }

  lemma {:induction false} CutAllAppend(a: seq<string>, b: seq<string>)
    ensures CutAll(a + b) == CutAll(a) + CutAll(b)
    decreases |a|
  {
    if a != [] {
      assert (a + b)[0] == a[0];
      assert (a + b)[1..] == a[1..] + b;
      assert CutAll(a + b) == [Cut(a[0])] + CutAll(a[1..] + b);
      CutAllAppend(a[1..], b);
    } else {
      assert a + b == b;
    }
  }

  /** Reading a query string back into its parameters. */
  function ParseQuery(query: string): seq<(string, string)>
  {
    CutAll(Split(query, '&'))
  }

  /** A parameter that can be read back on its own. */
  predicate Plain(p: (string, string))
  {
    '=' !in p.0 && '&' !in p.0 && '&' !in p.1
  }

  lemma ParseSingle(p: (string, string))
    requires Plain(p)
    ensures ParseQuery(Pair(p)) == [p]
  {
    assert '&' !in Pair(p);
    SplitWithout(Pair(p), '&');
    CutPair(p);
    assert CutAll([Pair(p)]) == [Cut(Pair(p))];
  }

  /** Appending `&key=value` to a query appends the parameter to what it
      reads back as. */
  lemma ParseSnoc(q: string, p: (string, string))
    requires Plain(p)
    ensures ParseQuery(q + ['&'] + Pair(p)) == ParseQuery(q) + [p]
  {
    assert '&' !in Pair(p);
    SplitWithout(Pair(p), '&');
    SplitJoin(q, Pair(p), '&');
    CutPair(p);
    CutAllAppend(Split(q, '&'), [Pair(p)]);
    assert CutAll([Pair(p)]) == [Cut(Pair(p))];
  }

  /** When no key holds '=' or '&' and no value holds '&', the parameters can
      be read back from the query, in order: nothing is escaped, lost or
      reordered. */
  lemma {:induction false} QueryStringRoundTrip(params: seq<(string, string)>)
    requires |params| >= 1
    requires forall i | 0 <= i < |params| :: Plain(params[i])
    ensures ParseQuery(QueryString(params)) == params
    decreases |params|
  {
    var last := params[|params| - 1];
    if |params| == 1 {
      ParseSingle(last);
    } else {
      var init := params[..|params| - 1];
      assert forall i | 0 <= i < |init| :: Plain(init[i]) by {
        forall i | 0 <= i < |init| ensures Plain(init[i]) {
          assert init[i] == params[i];
        }
      }
      QueryStringRoundTrip(init);
      assert QueryString(params) == QueryString(init) + ['&'] + Pair(last);
      ParseSnoc(QueryString(init), last);
      assert init + [last] == params;
    }
  }
}
