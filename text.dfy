/** String operations the core performs with regular expressions and
    `String.prototype` methods. Case mapping is ASCII only. */
module Text {
  import opened JsonModel

  predicate IsUpper(c: char) { 'A' <= c <= 'Z' }
  predicate IsLower(c: char) { 'a' <= c <= 'z' }
  predicate IsDigitChar(c: char) { '0' <= c <= '9' }

  /** `\w` and the class `[a-zA-Z0-9_]`. */
  predicate IsWordChar(c: char) { IsUpper(c) || IsLower(c) || IsDigitChar(c) || c == '_' }

  /** `/^[a-zA-Z0-9_]*$/.test(s)`: the validity test for type and tag names. */
  predicate IsValidTypeName(s: string) {
    forall i :: 0 <= i < |s| ==> IsWordChar(s[i])
  }

  function LowerChar(c: char): (d: char)
    ensures IsUpper(c) ==> IsLower(d)
    ensures !IsUpper(c) ==> d == c
  {
    if IsUpper(c) then (c as int + 32) as char else c
  }

  function UpperChar(c: char): (d: char)
    ensures IsLower(c) ==> IsUpper(d) && LowerChar(d) == c
    ensures !IsLower(c) ==> d == c
  {
    if IsLower(c) then (c as int - 32) as char else c
  }

  /** `s.toLowerCase()` */
  function ToLower(s: string): (r: string)
    ensures |r| == |s|
    ensures forall i :: 0 <= i < |s| ==> r[i] == LowerChar(s[i])
  {
    if s == [] then [] else [LowerChar(s[0])] + ToLower(s[1..])
  }

  /** `s.toUpperCase()` */
  function ToUpper(s: string): (r: string)
    ensures |r| == |s|
    ensures forall i :: 0 <= i < |s| ==> r[i] == UpperChar(s[i])
  {
    if s == [] then [] else [UpperChar(s[0])] + ToUpper(s[1..])
  }

  /** `s.replace(/[^a-zA-Z0-9_]/g, '_')` */
  function SanitizeTypeName(s: string): (r: string)
    ensures |r| == |s|
    ensures forall i :: 0 <= i < |s| ==> r[i] == if IsWordChar(s[i]) then s[i] else '_'
  {
    if s == [] then [] else [if IsWordChar(s[0]) then s[0] else '_'] + SanitizeTypeName(s[1..])
  }

  /** Every sanitised name passes the validity test, and the valid names are
      exactly those sanitising leaves alone. */
  lemma SanitizeTypeNameValid(s: string)
    ensures IsValidTypeName(SanitizeTypeName(s))
    ensures SanitizeTypeName(s) == s <==> IsValidTypeName(s)
  {
    if SanitizeTypeName(s) == s {
      forall i | 0 <= i < |s| ensures IsWordChar(s[i]) {
        assert SanitizeTypeName(s)[i] == s[i];
      }
    }
  }

  /** The leftmost position at or after `from` where `pat` occurs in `s`. */
  function FindFrom(s: string, pat: string, from: nat): (r: Option<nat>)
    requires from <= |s|
    ensures r.Some? ==> from <= r.value <= |s| && pat <= s[r.value..]
    ensures r.Some? ==> forall j :: from <= j < r.value ==> !(pat <= s[j..])
    ensures r.None? ==> forall j :: from <= j <= |s| ==> !(pat <= s[j..])
    decreases |s| - from
  {
    if pat <= s[from..] then Some(from)
    else if from == |s| then None
    else FindFrom(s, pat, from + 1)
  }

  /** `s.replace(pat, rep)` with a string pattern: only the leftmost
      occurrence is replaced, and without one `s` is returned unchanged. */
  function ReplaceFirst(s: string, pat: string, rep: string): (r: string)
  {
    match FindFrom(s, pat, 0)
    case None => s
    case Some(i) => s[..i] + rep + s[i + |pat|..]
  }

  lemma ReplaceFirstAbsent(s: string, pat: string, rep: string)
    requires forall j :: 0 <= j <= |s| ==> !(pat <= s[j..])
    ensures ReplaceFirst(s, pat, rep) == s
  {
  }

  /** `s.replace(c, rep)` with a one-character pattern, walked character by
      character. */
  function ReplaceFirstChar(s: string, c: char, rep: string): string {
    if s == [] then []
    else if s[0] == c then rep + s[1..]
    else [s[0]] + ReplaceFirstChar(s[1..], c, rep)
  }

  /** For a one-character pattern the walk is the string-pattern `replace`. */
  lemma ReplaceFirstCharIs(s: string, c: char, rep: string)
    ensures ReplaceFirstChar(s, c, rep) == ReplaceFirst(s, [c], rep)
  {
    match FindFrom(s, [c], 0)
    case Some(i) =>
      assert s[i..][0] == c;
      forall j | 0 <= j < i ensures s[j] != c {
        assert s[j..][0] == s[j];
      }
      ReplaceFirstCharAt(s, c, rep, i);
    case None =>
      forall j | 0 <= j < |s| ensures s[j] != c {
        assert s[j..][0] == s[j];
      }
      ReplaceFirstCharNone(s, c, rep);
  }

  lemma {:induction false} ReplaceFirstCharAt(s: string, c: char, rep: string, i: nat)
    requires i < |s| && s[i] == c && forall j :: 0 <= j < i ==> s[j] != c
    ensures ReplaceFirstChar(s, c, rep) == s[..i] + rep + s[i + 1..]
  {
    if i > 0 {
      ReplaceFirstCharAt(s[1..], c, rep, i - 1);
      assert s[..i] == [s[0]] + s[1..][..i - 1];
      assert s[i + 1..] == s[1..][i..];
    }
  }

  lemma {:induction false} ReplaceFirstCharNone(s: string, c: char, rep: string)
    requires forall j :: 0 <= j < |s| ==> s[j] != c
    ensures ReplaceFirstChar(s, c, rep) == s
  {
    if s != [] {
      ReplaceFirstCharNone(s[1..], c, rep);
    }
  }

  /** `s.replace(/ /g, '')` */
  function RemoveSpaces(s: string): (r: string)
    ensures forall i :: 0 <= i < |r| ==> r[i] != ' '
    ensures |r| <= |s|
    ensures (forall i :: 0 <= i < |s| ==> s[i] != ' ') ==> r == s
  {
    if s == [] then [] else (if s[0] == ' ' then [] else [s[0]]) + RemoveSpaces(s[1..])
  }

  /** `s.split(c)` with a one-character separator. */
  function Split(s: string, c: char): (r: seq<string>)
    ensures |r| >= 1
    ensures forall k :: 0 <= k < |r| ==> c !in r[k]
    decreases |s|
  {
    if s == [] then [""]
    else
      var rest := Split(s[1..], c);
      if s[0] == c then [""] + rest else [[s[0]] + rest[0]] + rest[1..]
  }

  /** `parts.join(sep)` */
  function Join(parts: seq<string>, sep: string): string {
    if parts == [] then ""
    else if |parts| == 1 then parts[0]
    else parts[0] + sep + Join(parts[1..], sep)
  }

  /** Splitting loses nothing: joining the segments with the separator
      gives back the original string. */
  lemma {:induction false} JoinSplit(s: string, c: char)
    ensures Join(Split(s, c), [c]) == s
    decreases |s|
  {
    if s != [] {
      JoinSplit(s[1..], c);
      var rest := Split(s[1..], c);
      if s[0] != c {
        if |rest| > 1 {
          assert Join(rest, [c]) == rest[0] + [c] + Join(rest[1..], [c]);
        }
      }
    }
  }

  /** A string without the separator is its own single segment. */
  lemma {:induction false} SplitNone(s: string, c: char)
    requires c !in s
    ensures Split(s, c) == [s]
    decreases |s|
  {
    if s != [] {
      SplitNone(s[1..], c);
      assert s == [s[0]] + s[1..];
    }
  }

  /** Splitting at a separator splits the two sides apart. */
  lemma {:induction false} SplitAt(a: string, b: string, c: char)
    ensures Split(a + [c] + b, c) == Split(a, c) + Split(b, c)
    decreases |a|
  {
    var s := a + [c] + b;
    if a == [] {
      assert s[1..] == b;
    } else {
      assert s[0] == a[0] && s[1..] == a[1..] + [c] + b;
      SplitAt(a[1..], b, c);
    }
  }

  /** Joining one more part appends the separator and that part. */
  lemma {:induction false} JoinAppend(parts: seq<string>, p: string, sep: string)
    requires parts != []
    ensures Join(parts + [p], sep) == Join(parts, sep) + sep + p
  {
    var all := parts + [p];
    assert all[0] == parts[0] && all[1..] == parts[1..] + [p];
    if |parts| > 1 {
      JoinAppend(parts[1..], p, sep);
    } else {
      assert all[1..] == [p];
    }
  }

  /** The text after the last `/`, as `split('/')` then last element. */
  function LastSegment(s: string): (r: string)
    ensures '/' !in r
  {
    var parts := Split(s, '/');
    parts[|parts| - 1]
  }

  function IndexOfChar(s: string, c: char): (i: nat)
    requires c in s
    ensures i < |s| && s[i] == c && c !in s[..i]
  {
    if s[0] == c then 0 else 1 + IndexOfChar(s[1..], c)
  }

  /** `path.replace(/{([^}]*)}/gi, (_, x) => '${' + x + '}')`: each `{…}` whose
      closing brace follows becomes a template interpolation `${…}`. */
  function RewritePathParams(s: string): (r: string)
    decreases |s|
  {
    if s == [] then []
    else if s[0] == '{' && '}' in s[1..] then
      var j := IndexOfChar(s[1..], '}');
      ['$'] + s[..j + 2] + RewritePathParams(s[j + 2..])
    else [s[0]] + RewritePathParams(s[1..])
  }

  function RemoveChar(s: string, c: char): string {
    if s == [] then [] else (if s[0] == c then [] else [s[0]]) + RemoveChar(s[1..], c)
  }

  lemma {:induction false} RemoveCharAppend(a: string, b: string, c: char)
    ensures RemoveChar(a + b, c) == RemoveChar(a, c) + RemoveChar(b, c)
    decreases |a|
  {
    if a == [] {
      assert a + b == b;
    } else {
      assert (a + b)[1..] == a[1..] + b;
      RemoveCharAppend(a[1..], b, c);
    }
  }

  /** The rewrite only inserts `$` signs: erasing them from input and
      output gives the same text. */
  lemma {:induction false} RewritePathParamsInsertsDollars(s: string)
    ensures RemoveChar(RewritePathParams(s), '$') == RemoveChar(s, '$')
    decreases |s|
  {
    if s != [] {
      if s[0] == '{' && '}' in s[1..] {
        var j := IndexOfChar(s[1..], '}');
        var head, tail := s[..j + 2], s[j + 2..];
        RewritePathParamsInsertsDollars(tail);
        assert s == head + tail;
        assert RewritePathParams(s) == ['$'] + (head + RewritePathParams(tail));
        assert (['$'] + (head + RewritePathParams(tail)))[1..] == head + RewritePathParams(tail);
        RemoveCharAppend(head, RewritePathParams(tail), '$');
        RemoveCharAppend(head, tail, '$');
      } else {
        RewritePathParamsInsertsDollars(s[1..]);
        assert RewritePathParams(s) == [s[0]] + RewritePathParams(s[1..]);
        assert ([s[0]] + RewritePathParams(s[1..]))[1..] == RewritePathParams(s[1..]);
      }
    }
  }

  /** A path without `{` is left as it is. */
  lemma {:induction false} RewritePathParamsNoBrace(s: string)
    requires '{' !in s
    ensures RewritePathParams(s) == s
    decreases |s|
  {
    if s != [] {
      assert '{' !in s[1..];
      RewritePathParamsNoBrace(s[1..]);
    }
  }

  /** Text before the first `{` is copied as it is. */
  lemma {:induction false} RewritePathParamsPrefix(a: string, t: string)
    requires '{' !in a
    ensures RewritePathParams(a + t) == a + RewritePathParams(t)
    decreases |a|
  {
    if a == [] {
      assert a + t == t;
    } else {
      assert (a + t)[0] == a[0] && (a + t)[1..] == a[1..] + t;
      assert '{' !in a[1..];
      RewritePathParamsPrefix(a[1..], t);
      assert a == [a[0]] + a[1..];
    }
  }

  /** A placeholder at the front becomes an interpolation, and the
      rewrite goes on after its closing brace. */
  lemma RewritePathParamsHead(x: string, b: string)
    requires '}' !in x
    ensures RewritePathParams("{" + x + "}" + b) == "${" + x + "}" + RewritePathParams(b)
  {
    var t := "{" + x + "}" + b;
    var u := x + ("}" + b);
    assert t[1..] == u;
    assert u[|x|] == '}';
    IndexOfCharPrefix(x, "}" + b, '}');
    assert IndexOfChar(u, '}') == |x|;
    assert t[..|x| + 2] == "{" + x + "}";
    assert t[|x| + 2..] == b;
    assert "$" + ("{" + x + "}") == "${" + x + "}";
  }

  /** One placeholder: `<a>{<x>}<b>` becomes `<a>${<x>}<b>` when `a` and
      `b` hold no `{` and the name holds no `}`. */
  lemma RewritePathParamsOne(a: string, x: string, b: string)
    requires '{' !in a && '}' !in x && '{' !in b
    ensures RewritePathParams(a + "{" + x + "}" + b) == a + "${" + x + "}" + b
  {
    var t := "{" + x + "}" + b;
    assert a + "{" + x + "}" + b == a + t;
    RewritePathParamsPrefix(a, t);
    RewritePathParamsHead(x, b);
    RewritePathParamsNoBrace(b);
    assert a + ("${" + x + "}" + b) == a + "${" + x + "}" + b;
  }

  lemma {:induction false} IndexOfCharPrefix(a: string, b: string, c: char)
    requires c !in a && c in b
    ensures c in a + b && IndexOfChar(a + b, c) == |a| + IndexOfChar(b, c)
    decreases |a|
  {
    assert (a + b)[|a| + IndexOfChar(b, c)] == c;
    if a != [] {
      assert (a + b)[1..] == a[1..] + b;
      assert c !in a[1..];
      IndexOfCharPrefix(a[1..], b, c);
    } else {
      assert a + b == b;
    }
  }
}
