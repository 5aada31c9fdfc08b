/** String operations of Ruby's core library that the deployment script relies
    on: String#split with a one-character separator, Array#join, String#gsub!
    with a literal pattern, and Hash#to_json for a hash of strings. */
module Text {

  import opened Wrappers

  /** The fields of `s` between occurrences of `sep`, empty fields included.
      "a--b" has the fields "a", "" and "b"; "" has the single field "". */
  function Fields(s: string, sep: char): (r: seq<string>)
    ensures |r| >= 1
    ensures forall i :: 0 <= i < |r| ==> sep !in r[i]
    decreases |s|
  {
    if s == [] then [""]
    else if s[0] == sep then [""] + Fields(s[1..], sep)
    else
      var rest := Fields(s[1..], sep);
      [[s[0]] + rest[0]] + rest[1..]
  }

  /** Array#join: the parts with `sep` between consecutive ones. */
  function Join(parts: seq<string>, sep: char): string
  {
    if parts == [] then ""
    else if |parts| == 1 then parts[0]
    else parts[0] + [sep] + Join(parts[1..], sep)
  }

  /** Ruby drops the empty fields at the end of a split. */
  function DropTrailingEmpty(parts: seq<string>): (r: seq<string>)
    ensures |r| <= |parts| && r == parts[..|r|]
    ensures r != [] ==> r[|r| - 1] != ""
    ensures forall i :: |r| <= i < |parts| ==> parts[i] == ""
  {
    if parts != [] && parts[|parts| - 1] == "" then DropTrailingEmpty(parts[..|parts| - 1])
    else parts
  }

  /** String#split(sep) for a one-character separator. */
  function Split(s: string, sep: char): (r: seq<string>)
    ensures forall i :: 0 <= i < |r| ==> sep !in r[i]
  {
    DropTrailingEmpty(Fields(s, sep))
  }

  /** A string made of `n` separators. */
  function Repeat(c: char, n: nat): (r: string)
    ensures |r| == n && forall i :: 0 <= i < n ==> r[i] == c
  {
    if n == 0 then "" else [c] + Repeat(c, n - 1)
  }

  lemma {:induction false} FieldsOfPlain(s: string, sep: char)
    requires sep !in s
    ensures Fields(s, sep) == [s]
    decreases |s|
  {
    if s != [] {
      FieldsOfPlain(s[1..], sep);
      assert [s[0]] + s[1..] == s;
    }
  }

  /** Splitting at the first separator peels off the text before it. */
  lemma {:induction false} FieldsOfCons(a: string, sep: char, b: string)
    requires sep !in a
    ensures Fields(a + [sep] + b, sep) == [a] + Fields(b, sep)
    decreases |a|
  {
    var s := a + [sep] + b;
    if a == [] {
      assert s[1..] == b;
    } else {
      assert s[1..] == a[1..] + [sep] + b;
      FieldsOfCons(a[1..], sep, b);
      assert [a[0]] + a[1..] == a;
    }
  }

  /** Joining the fields gives back the string: split and join are inverse. */
  lemma {:induction false} JoinFields(s: string, sep: char)
    ensures Join(Fields(s, sep), sep) == s
    decreases |s|
  {
    if s != [] {
      JoinFields(s[1..], sep);
      var rest := Fields(s[1..], sep);
      if s[0] == sep {
        assert Fields(s, sep)[1..] == rest;
        assert [sep] + s[1..] == s;
      } else {
        var r := Fields(s, sep);
        assert r[1..] == rest[1..];
        if |rest| == 1 {
          assert [s[0]] + s[1..] == s;
        } else {
          assert rest[0] + [sep] + Join(rest[1..], sep) == s[1..];
          assert r[0] + [sep] + Join(r[1..], sep) == [s[0]] + s[1..];
          assert [s[0]] + s[1..] == s;
        }
      }
    }
  }

  /** Joining with trailing empty parts appends one separator per empty part. */
  lemma {:induction false} JoinEmptyTail(parts: seq<string>, n: nat, sep: char)
    requires parts != []
    ensures Join(parts + seq(n, _ => ""), sep) == Join(parts, sep) + Repeat(sep, n)
    decreases |parts|
  {
    var tail: seq<string> := seq(n, _ => "");
    if |parts| == 1 {
      JoinOfEmpties(parts[0], n, sep);
    } else {
      assert (parts + tail)[1..] == parts[1..] + tail;
      JoinEmptyTail(parts[1..], n, sep);
    }
  }

  lemma {:induction false} JoinOfEmpties(p: string, n: nat, sep: char)
    ensures Join([p] + seq(n, _ => ""), sep) == p + Repeat(sep, n)
    decreases n
  {
    var tail: seq<string> := seq(n, _ => "");
    if n > 0 {
      var tail': seq<string> := seq(n - 1, _ => "");
      assert ([p] + tail)[1..] == [""] + tail';
      JoinOfEmpties("", n - 1, sep);
      assert [sep] + Repeat(sep, n - 1) == Repeat(sep, n);
    }
  }

  /** What a three-way Ruby split says about the string that was split: it is
      the three fields joined by the separator, followed only by separators. */
  lemma SplitThree(s: string, sep: char, a: string, b: string, c: string)
    requires Split(s, sep) == [a, b, c]
    ensures sep !in a && sep !in b && sep !in c && c != ""
    ensures exists n: nat :: s == a + [sep] + b + [sep] + c + Repeat(sep, n)
  {
    var n: nat := |Fields(s, sep)| - 3;
    FieldsOfSplitThree(s, sep, a, b, c);
    JoinFields(s, sep);
    JoinEmptyTail([a, b, c], n, sep);
    JoinThree(a, b, c, sep);
  }

  /** The fields behind a three-way split: those three, then empty ones. */
  lemma FieldsOfSplitThree(s: string, sep: char, a: string, b: string, c: string)
    requires Split(s, sep) == [a, b, c]
    ensures |Fields(s, sep)| >= 3
    ensures Fields(s, sep) == [a, b, c] + seq(|Fields(s, sep)| - 3, _ => "")
  {
    var f := Fields(s, sep);
    assert f[..3] == [a, b, c];
  }

  lemma JoinThree(a: string, b: string, c: string, sep: char)
    ensures Join([a, b, c], sep) == a + [sep] + b + [sep] + c
  {
    assert [a, b, c][1..] == [b, c] && [b, c][1..] == [c];
    assert Join([c], sep) == c;
    assert Join([b, c], sep) == b + [sep] + c;
  }

  /** Splitting a string built from three separator-free fields, the last one
      non-empty, gives back exactly those fields. */
  lemma SplitJoinThree(a: string, b: string, c: string, sep: char)
    requires sep !in a && sep !in b && sep !in c && c != ""
    ensures Split(a + [sep] + b + [sep] + c, sep) == [a, b, c]
  {
    FieldsOfCons(a, sep, b + [sep] + c);
    FieldsOfCons(b, sep, c);
    FieldsOfPlain(c, sep);
    assert a + [sep] + b + [sep] + c == a + [sep] + (b + [sep] + c);
  }

  /** Splitting "a<sep>b" for separator-free `a` and non-empty `b` gives the
      two fields; anything after a second separator is further fields. */
  lemma SplitTwo(a: string, b: string, sep: char)
    requires sep !in a && sep !in b && b != ""
    ensures Split(a + [sep] + b, sep) == [a, b]
  {
    FieldsOfCons(a, sep, b);
    FieldsOfPlain(b, sep);
  }

  // ---------------------------------------------------------------------------
  // gsub! with a literal pattern

  predicate StartsWith(s: string, pat: string)
  {
    |pat| <= |s| && s[..|pat|] == pat
  }

  /** `pat` occurs somewhere in `s`. */
  predicate Occurs(s: string, pat: string)
  {
    exists i :: 0 <= i <= |s| && StartsWith(s[i..], pat)
  }

  /** String#gsub with a literal pattern: every non-overlapping occurrence of
      `pat`, scanning from the left, is replaced by `rep`. */
  function ReplaceAll(s: string, pat: string, rep: string): string
    requires pat != []
    decreases |s|
  {
    if |s| < |pat| then s
    else if StartsWith(s, pat) then rep + ReplaceAll(s[|pat|..], pat, rep)
    else [s[0]] + ReplaceAll(s[1..], pat, rep)
  }

  /** A text without the pattern is left as it is. */
  lemma {:induction false} ReplaceAbsent(s: string, pat: string, rep: string)
    requires pat != [] && !Occurs(s, pat)
    ensures ReplaceAll(s, pat, rep) == s
    decreases |s|
  {
    if |s| >= |pat| {
      assert s[0..] == s;
      assert !Occurs(s[1..], pat) by {
        forall i | 0 <= i <= |s[1..]| ensures !StartsWith(s[1..][i..], pat) {
          assert s[1..][i..] == s[i + 1..];
        }
      }
      ReplaceAbsent(s[1..], pat, rep);
      assert [s[0]] + s[1..] == s;
    }
  }

  /** A text `s` holding the pattern once, at the end of `a`, with no
      occurrence starting inside `a` and none inside `b`, has exactly that
      occurrence replaced. */
  lemma {:induction false} ReplaceOnce(s: string, a: string, pat: string, b: string, rep: string)
    requires pat != [] && s == a + pat + b
    requires forall i :: 0 <= i < |a| ==> !StartsWith(s[i..], pat)
    requires !Occurs(b, pat)
    ensures ReplaceAll(s, pat, rep) == a + rep + b
    decreases |a|
  {
    if a == [] {
      assert s[..|pat|] == pat && s[|pat|..] == b;
      ReplaceAbsent(b, pat, rep);
    } else {
      assert s[0..] == s;
      var s' := s[1..];
      assert s' == a[1..] + pat + b;
      forall i | 0 <= i < |a[1..]| ensures !StartsWith(s'[i..], pat) {
        assert s'[i..] == s[i + 1..];
      }
      ReplaceOnce(s', a[1..], pat, b, rep);
      assert [a[0]] + a[1..] == a;
    }
  }

  // ---------------------------------------------------------------------------
  // Ruby hashes of strings, in insertion order

  /** An insertion-ordered string hash, as a list of key/value pairs. */
  type Pairs = seq<(string, string)>

  predicate DistinctKeys(h: Pairs)
  {
    forall i, j :: 0 <= i < j < |h| ==> h[i].0 != h[j].0
  }

  function Keys(h: Pairs): (r: seq<string>)
    ensures |r| == |h| && forall i :: 0 <= i < |h| ==> r[i] == h[i].0
  {
    if h == [] then [] else [h[0].0] + Keys(h[1..])
  }

  /** `h[k] = v`: a key already present keeps its place and takes the new
      value; a new key goes at the end. */
  function Store(h: Pairs, k: string, v: string): (r: Pairs)
    ensures |r| == if k in Keys(h) then |h| else |h| + 1
    ensures k !in Keys(h) ==> r == h + [(k, v)]
    ensures k in Keys(h) ==> Keys(r) == Keys(h)
  {
    if h == [] then [(k, v)]
    else if h[0].0 == k then [(k, v)] + h[1..]
    else [h[0]] + Store(h[1..], k, v)
  }

  /** The value a key maps to, if it is present. */
  function Lookup(h: Pairs, k: string): Option<string>
  {
    if h == [] then None
    else if h[0].0 == k then Some(h[0].1)
    else Lookup(h[1..], k)
  }

  /** Storing a key makes it map to the stored value and leaves every other
      key's value as it was. */
  lemma {:induction false} LookupStore(h: Pairs, k: string, v: string, k': string)
    ensures Lookup(Store(h, k, v), k') == if k' == k then Some(v) else Lookup(h, k')
  {
    if h != [] && h[0].0 != k {
      LookupStore(h[1..], k, v, k');
      assert Store(h, k, v)[1..] == Store(h[1..], k, v);
    }
  }

  /** Storing keeps the keys distinct. */
  lemma {:induction false} StoreDistinct(h: Pairs, k: string, v: string)
    requires DistinctKeys(h)
    ensures DistinctKeys(Store(h, k, v))
    ensures Keys(Store(h, k, v)) == if k in Keys(h) then Keys(h) else Keys(h) + [k]
  {
    var r := Store(h, k, v);
    assert forall i :: 0 <= i < |r| ==> Keys(r)[i] == r[i].0;
    if k !in Keys(h) {
      assert forall i :: 0 <= i < |h| ==> h[i].0 != k by {
        forall i | 0 <= i < |h| ensures h[i].0 != k {
          assert Keys(h)[i] == h[i].0;
        }
      }
      assert Keys(r) == Keys(h) + [k];
    } else {
      forall i, j | 0 <= i < j < |r| ensures r[i].0 != r[j].0 {
        assert Keys(r)[i] == Keys(h)[i] == h[i].0;
        assert Keys(r)[j] == Keys(h)[j] == h[j].0;
      }
    }
  }

  /** Hash#to_json for a hash from strings to strings. Keys and values are
      written between double quotes without escaping. */
  function ToJson(h: Pairs): string
  {
    "{" + JsonMembers(h) + "}"
  }

  function JsonMembers(h: Pairs): string
  {
    if h == [] then ""
    else if |h| == 1 then Quote(h[0].0) + ":" + Quote(h[0].1)
    else Quote(h[0].0) + ":" + Quote(h[0].1) + "," + JsonMembers(h[1..])
  }

  function Quote(s: string): string
  {
    "\"" + s + "\""
  }
}
