/** File- and instance-name helpers of lib/util.ts (ServiceGenerator keeps
    textually identical private copies). */
module Names {
  import opened Text

  /** `s.replace(/([A-Z])/g, '_$1').toLowerCase()` */
  function Underscored(s: string): (r: string)
    ensures forall i :: 0 <= i < |r| ==> !IsUpper(r[i])
  {
    if s == [] then []
    else (if IsUpper(s[0]) then ['_', LowerChar(s[0])] else [LowerChar(s[0])]) + Underscored(s[1..])
  }

  /** `toHyphenCase`: underscore before each capital, lower-case everything,
      then drop one leading underscore. */
  function ToHyphenCase(s: string): (r: string)
    ensures forall i :: 0 <= i < |r| ==> !IsUpper(r[i])
  {
    var u := Underscored(s);
    if |u| > 0 && u[0] == '_' then u[1..] else u
  }

  /** `toCamelCase`: each `_` followed by a word character, scanning left to
      right without overlap, becomes that character upper-cased. */
  function ToCamelCase(s: string): (r: string)
    ensures |r| <= |s|
    decreases |s|
  {
    if |s| >= 2 && s[0] == '_' && IsWordChar(s[1]) then [UpperChar(s[1])] + ToCamelCase(s[2..])
    else if s == [] then []
    else [s[0]] + ToCamelCase(s[1..])
  }

  /** `s[0].toLowerCase() + s.slice(1)` for a non-empty `s`. */
  function LowerFirst(s: string): (r: string)
    requires |s| > 0
    ensures |r| == |s| && r[1..] == s[1..] && r[0] == LowerChar(s[0])
  {
    [LowerChar(s[0])] + s[1..]
  }

  /** `toCamelCase` leaves a string without `_` unchanged. */
  lemma {:induction false} ToCamelCaseNoUnderscore(s: string)
    requires '_' !in s
    ensures ToCamelCase(s) == s
    decreases |s|
  {
    if s != [] {
      assert '_' !in s[1..];
      ToCamelCaseNoUnderscore(s[1..]);
    }
  }

  lemma {:induction false} UnderscoredIdentity(s: string)
    requires forall i :: 0 <= i < |s| ==> !IsUpper(s[i])
    ensures Underscored(s) == s
    decreases |s|
  {
    if s != [] {
      UnderscoredIdentity(s[1..]);
    }
  }

  /** `toHyphenCase` leaves a string without capitals that does not start
      with `_` unchanged. */
  lemma ToHyphenCaseIdentity(s: string)
    requires forall i :: 0 <= i < |s| ==> !IsUpper(s[i])
    requires |s| == 0 || s[0] != '_'
    ensures ToHyphenCase(s) == s
  {
    UnderscoredIdentity(s);
  }

  /** A leading `_` of the input itself is dropped too. */
  lemma ToHyphenCaseDropsOwnUnderscore(s: string)
    requires forall i :: 0 <= i < |s| ==> !IsUpper(s[i])
    requires |s| > 0 && s[0] == '_'
    ensures ToHyphenCase(s) == s[1..]
  {
    UnderscoredIdentity(s);
  }

  lemma {:induction false} CamelOfUnderscored(s: string)
    requires '_' !in s
    ensures ToCamelCase(Underscored(s)) == s
    decreases |s|
  {
    if s != [] {
      assert '_' !in s[1..];
      CamelOfUnderscored(s[1..]);
      var rest := Underscored(s[1..]);
      if IsUpper(s[0]) {
        assert Underscored(s) == ['_', LowerChar(s[0])] + rest;
        assert (['_', LowerChar(s[0])] + rest)[2..] == rest;
      } else {
        assert Underscored(s) == [s[0]] + rest;
        assert ([s[0]] + rest)[1..] == rest;
      }
    }
  }

  /** Round trip: for a name without `_`, camel-casing its hyphen-case form
      gives the name with its first letter lowered (the `instanceName` shape). */
  lemma CamelOfHyphen(s: string)
    requires |s| > 0 && '_' !in s
    ensures ToCamelCase(ToHyphenCase(s)) == LowerFirst(s)
  {
    CamelOfUnderscored(s[1..]);
    var rest := Underscored(s[1..]);
    assert '_' !in s[1..];
    if IsUpper(s[0]) {
      assert Underscored(s) == ['_', LowerChar(s[0])] + rest;
      assert ToHyphenCase(s) == [LowerChar(s[0])] + rest;
    } else {
      assert Underscored(s) == [s[0]] + rest;
    }
    assert ([LowerChar(s[0])] + rest)[1..] == rest;
  }
}
