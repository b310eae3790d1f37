/**
 C strings: a char stands for the byte with its code.
 */
module Text {
  import opened Ordering

  const NUL: char := '\0'

  /** The bytes before the first NUL (all of them, when there is none). */
  function CStr(s: seq<char>): (t: seq<char>)
    ensures |t| <= |s| && t == s[..|t|] && NUL !in t
    ensures |t| < |s| ==> s[|t|] == NUL
  {
    if s == [] || s[0] == NUL then [] else [s[0]] + CStr(s[1..])
  }

  lemma CStrIs(s: seq<char>, t: seq<char>)
    requires NUL !in t && |t| < |s| && s[..|t|] == t && s[|t|] == NUL
    ensures CStr(s) == t
  {
    var u := CStr(s);
    assert forall i :: 0 <= i < |t| ==> s[i] == t[i] && t[i] in t;
    assert forall i :: 0 <= i < |u| ==> s[i] == u[i] && u[i] in u;
  }

  /** A text without NUL is its own C string. */
  lemma NoNulCStr(s: seq<char>)
    requires NUL !in s
    ensures CStr(s) == s
  {
    assert forall i :: 0 <= i < |s| ==> s[i] in s;
  }

  /** The order of strcmp. */
  predicate TextLess(a: seq<char>, b: seq<char>) {
    if b == [] then false
    else if a == [] then true
    else if a[0] != b[0] then a[0] < b[0]
    else TextLess(a[1..], b[1..])
  }

  lemma {:induction false} TextIrreflexive(a: seq<char>)
    ensures !TextLess(a, a)
  {
    if a != [] { TextIrreflexive(a[1..]); }
  }

  lemma {:induction false} TextTransitive(a: seq<char>, b: seq<char>, c: seq<char>)
    requires TextLess(a, b) && TextLess(b, c)
    ensures TextLess(a, c)
    decreases |a|
  {
    if a != [] && a[0] == b[0] && b[0] == c[0] { TextTransitive(a[1..], b[1..], c[1..]); }
  }

  lemma {:induction false} TextTotal(a: seq<char>, b: seq<char>)
    requires a != b
    ensures TextLess(a, b) || TextLess(b, a)
    decreases |a|
  {
    if a != [] && b != [] && a[0] == b[0] {
      assert a == [a[0]] + a[1..] && b == [b[0]] + b[1..];
      TextTotal(a[1..], b[1..]);
    }
  }

  /** The texts of CharStructs, ordered by strcmp, can be the keys of an ordered container. */
  lemma TextOrderIsTotal()
    ensures StrictTotalOrder(TextLess)
  {
    forall a { TextIrreflexive(a); }
    forall a, b, c | TextLess(a, b) && TextLess(b, c) ensures TextLess(a, c) { TextTransitive(a, b, c); }
    forall a, b | a != b ensures TextLess(a, b) || TextLess(b, a) { TextTotal(a, b); }
  }

  /** strcmp stops at the first difference. */
  lemma {:induction false} LessAtFirstDifference(a: seq<char>, b: seq<char>, i: nat)
    requires i <= |a| && i <= |b| && a[..i] == b[..i]
    ensures i < |a| && i < |b| && a[i] != b[i] ==> (TextLess(a, b) <==> a[i] < b[i])
    ensures i == |a| || i == |b| ==> (TextLess(a, b) <==> |a| < |b|)
    decreases i
  {
    if i > 0 {
      assert a[..i][0] == b[..i][0];
      assert a[1..][..i - 1] == a[..i][1..] && b[1..][..i - 1] == b[..i][1..];
      LessAtFirstDifference(a[1..], b[1..], i - 1);
    }
  }
}
