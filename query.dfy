/**
 * `Dictionary.queryString` and `Dictionary.queryData`: render a dictionary as
 * `key=value` fragments separated by `&`, without any escaping.
 *
 * A Swift dictionary has distinct keys and an unspecified iteration order; it
 * is modelled as a sequence of pairs with distinct keys, taken in the order
 * the dictionary iterates. Values are the strings `"\(value)"` renders.
 */
module Query {
  import opened Wrappers

  type Pair = (string, string)

  predicate DistinctKeys(pairs: seq<Pair>) {
    forall i, j :: 0 <= i < j < |pairs| ==> pairs[i].0 != pairs[j].0
  }

  /** A `[String: Any]` dictionary, in its iteration order. */
  type Dictionary = pairs: seq<Pair> | DistinctKeys(pairs) witness []

  /** The text one entry contributes: `key=value`, both verbatim. */
  function Fragment(p: Pair): string {
    p.0 + "=" + p.1
  }

  /** Reference definition: the fragments joined by `&`, empty for no pairs. */
  function Join(pairs: seq<Pair>): string {
    if |pairs| == 0 then ""
    else if |pairs| == 1 then Fragment(pairs[0])
    else Fragment(pairs[0]) + "&" + Join(pairs[1..])
  }

  /** Appending a pair to a non-empty sequence appends `&` and its fragment. */
  lemma {:induction false} JoinSnoc(pairs: seq<Pair>, p: Pair)
    requires |pairs| > 0
    ensures Join(pairs + [p]) == Join(pairs) + "&" + Fragment(p)
  {
    if |pairs| > 1 {
      assert (pairs + [p])[1..] == pairs[1..] + [p];
      JoinSnoc(pairs[1..], p);
    } else {
      assert (pairs + [p])[1..] == [p];
    }
  }

  /**
   * The source's loop: append `key=value&` for every entry, then drop the last
   * character (nothing to drop for an empty dictionary).
   */
  method QueryString(dict: Dictionary) returns (s: string)
    ensures s == Join(dict)
  {
    var output: string := "";
    for i := 0 to |dict|
      invariant i == 0 ==> output == ""
      invariant i > 0 ==> output == Join(dict[..i]) + "&"
    {
      if i > 0 {
        assert dict[..i + 1] == dict[..i] + [dict[i]];
        JoinSnoc(dict[..i], dict[i]);
      }
      output := output + Fragment(dict[i]) + "&";
    }
    output := if |output| == 0 then output else output[..|output| - 1];
    assert |dict| > 0 ==> dict[..|dict|] == dict;
    s := output;
  }

  /**
   * UTF-8 data of the query string. `utf8` stands for Foundation's encoder,
   * which never fails for UTF-8, so the result is always present.
   */
  method QueryData(dict: Dictionary, utf8: string -> Bytes) returns (d: Option<Bytes>)
    ensures d == Some(utf8(Join(dict)))
  {
    var s := QueryString(dict);
    d := Some(utf8(s));
  }

  /** An empty dictionary gives the empty string. */
  lemma JoinEmpty()
    ensures Join([]) == ""
  {
  }

  /** Total length of the fragments. */
  function FragmentsLength(pairs: seq<Pair>): nat {
    if |pairs| == 0 then 0 else |pairs[0].0| + 1 + |pairs[0].1| + FragmentsLength(pairs[1..])
  }

  /** For n >= 1 pairs the output has the fragments' length plus n - 1 separators. */
  lemma {:induction false} JoinLength(pairs: seq<Pair>)
    requires |pairs| > 0
    ensures |Join(pairs)| == FragmentsLength(pairs) + |pairs| - 1
  {
    if |pairs| > 1 {
      JoinLength(pairs[1..]);
    }
  }

  /** Where the fragment of pair `i` starts in the joined string. */
  function Offset(pairs: seq<Pair>, i: nat): nat
    requires i <= |pairs|
  {
    if i == 0 then 0 else |Fragment(pairs[0])| + 1 + Offset(pairs[1..], i - 1)
  }

  /**
   * No escaping: every key and value appears verbatim at its offset, each
   * followed by `&` except the last.
   */
  lemma {:induction false} JoinVerbatim(pairs: seq<Pair>, i: nat)
    requires i < |pairs|
    ensures Offset(pairs, i) + |Fragment(pairs[i])| <= |Join(pairs)|
    ensures Join(pairs)[Offset(pairs, i)..Offset(pairs, i) + |Fragment(pairs[i])|] == pairs[i].0 + "=" + pairs[i].1
    ensures i < |pairs| - 1 ==> Offset(pairs, i) + |Fragment(pairs[i])| < |Join(pairs)|
    ensures i < |pairs| - 1 ==> Join(pairs)[Offset(pairs, i) + |Fragment(pairs[i])|] == '&'
  {
    var f := Fragment(pairs[0]);
    if |pairs| > 1 {
      var head := f + "&";
      var r := Join(pairs[1..]);
      assert Join(pairs) == head + r;
      if i > 0 {
        JoinVerbatim(pairs[1..], i - 1);
        var o := Offset(pairs[1..], i - 1);
        var n := |Fragment(pairs[i])|;
        assert Offset(pairs, i) == |head| + o;
        SliceAfter(head, r, o, o + n);
        if i < |pairs| - 1 {
          assert (head + r)[|head| + o + n] == r[o + n];
        }
      } else {
        assert Join(pairs)[..|f|] == f;
      }
    }
  }

  /** A slice of `a + b` that lies within `b`. */
  lemma SliceAfter(a: string, b: string, x: nat, y: nat)
    requires x <= y <= |b|
    ensures (a + b)[|a| + x..|a| + y] == b[x..y]
  {
  }

  /** Two different dictionaries that render to the same query string. */
  lemma AmbiguousWithoutEscaping()
    ensures Join([("a", "1&b=2")]) == Join([("a", "1"), ("b", "2")]) == "a=1&b=2"
  {
  }

  // ---------------------------------------------------------------------------
  // A reader of the query string, the inverse of Join: split at `&`, then each
  // fragment at its first `=`.

  /** The pieces of `s` between occurrences of `sep` (at least one piece). */
  function Split(s: string, sep: char): (parts: seq<string>)
    ensures |parts| >= 1
  {
    if |s| == 0 then [""]
    else
      var rest := Split(s[1..], sep);
      if s[0] == sep then [""] + rest else [[s[0]] + rest[0]] + rest[1..]
  }

  /** The text before the first `=`, and the text after it. */
  function Cut(f: string): Pair {
    if |f| == 0 then ("", "")
    else if f[0] == '=' then ("", f[1..])
    else
      var kv := Cut(f[1..]);
      ([f[0]] + kv.0, kv.1)
  }

  function CutAll(parts: seq<string>): (pairs: seq<Pair>)
    ensures |pairs| == |parts|
  {
    if |parts| == 0 then [] else [Cut(parts[0])] + CutAll(parts[1..])
  }

  /** Reads a query string back into pairs. */
  function Parse(s: string): (pairs: seq<Pair>) {
    if |s| == 0 then [] else CutAll(Split(s, '&'))
  }

  lemma {:induction false} SplitNoSep(x: string, sep: char)
    requires sep !in x
    ensures Split(x, sep) == [x]
  {
    if |x| > 0 {
      SplitNoSep(x[1..], sep);
      assert [x[0]] + x[1..] == x;
    }
  }

  lemma {:induction false} SplitAfter(x: string, sep: char, rest: string)
    requires sep !in x
    ensures Split(x + [sep] + rest, sep) == [x] + Split(rest, sep)
  {
    var s := x + [sep] + rest;
    if |x| == 0 {
      assert s[1..] == rest;
    } else {
      assert s[1..] == x[1..] + [sep] + rest;
      SplitAfter(x[1..], sep, rest);
      assert [x[0]] + x[1..] == x;
    }
  }

  lemma {:induction false} CutFragment(k: string, v: string)
    requires '=' !in k
    ensures Cut(k + "=" + v) == (k, v)
  {
    var f := k + "=" + v;
    if |k| == 0 {
      assert f[1..] == v;
    } else {
      assert f[1..] == k[1..] + "=" + v;
      CutFragment(k[1..], v);
      assert [k[0]] + k[1..] == k;
    }
  }

  /** Keys free of `&` and `=`, values free of `&`. */
  predicate Unambiguous(pairs: seq<Pair>) {
    forall i :: 0 <= i < |pairs| ==> '&' !in pairs[i].0 && '=' !in pairs[i].0 && '&' !in pairs[i].1
  }

  /**
   * Round trip: when no key holds `&` or `=` and no value holds `&`, reading
   * the query string back gives the pairs in order. Without escaping this is
   * the most that can hold (see AmbiguousWithoutEscaping).
   */
  lemma {:induction false} ParseJoin(pairs: seq<Pair>)
    requires Unambiguous(pairs)
    ensures Parse(Join(pairs)) == pairs
  {
    if |pairs| > 0 {
      JoinLength(pairs);
      SplitJoin(pairs);
    }
  }

  lemma {:induction false} SplitJoin(pairs: seq<Pair>)
    requires |pairs| > 0 && Unambiguous(pairs)
    ensures CutAll(Split(Join(pairs), '&')) == pairs
  {
    var p := pairs[0];
    CutFragment(p.0, p.1);
    assert '&' !in Fragment(p);
    if |pairs| == 1 {
      SplitNoSep(Fragment(p), '&');
    } else {
      SplitAfter(Fragment(p), '&', Join(pairs[1..]));
      assert Fragment(p) + "&" + Join(pairs[1..]) == Fragment(p) + ['&'] + Join(pairs[1..]);
      SplitJoin(pairs[1..]);
      var parts := Split(Join(pairs), '&');
      assert parts == [Fragment(p)] + Split(Join(pairs[1..]), '&');
      assert parts[1..] == Split(Join(pairs[1..]), '&');
    }
  }
}
