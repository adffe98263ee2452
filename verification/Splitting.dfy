/** Splitting strings at a separator. */
module Splitting {

  function Split(s: string, sep: char): (r: seq<string>)
    ensures r != []
  {
    if s == "" then [""]
    else
      var r := Split(s[1..], sep);
      if s[0] == sep then [""] + r else [[s[0]] + r[0]] + r[1..]
  }

  /** The parts before and after a separator are split apart. */
  lemma {:induction false} SplitAt(a: string, sep: char, b: string)
    requires sep !in a
    ensures Split(a + [sep] + b, sep) == [a] + Split(b, sep)
  {
    if a == "" {
      assert "" + [sep] + b == [sep] + b && ([sep] + b)[1..] == b;
    } else {
      SplitAt(a[1..], sep, b);
      assert (a + [sep] + b)[1..] == a[1..] + [sep] + b;
      assert [a[0]] + a[1..] == a;
    }
  }

  /** Only a string with a separator in it has more than one part. */
  lemma {:induction false} SplitPlain(s: string, sep: char)
    ensures sep !in s ==> Split(s, sep) == [s]
    ensures sep in s ==> |Split(s, sep)| > 1
  {
    if s != "" {
      SplitPlain(s[1..], sep);
      assert s == [s[0]] + s[1..];
    }
  }

  lemma {:induction false} PartsPlain(s: string, sep: char, i: nat)
    requires i < |Split(s, sep)|
    ensures sep !in Split(s, sep)[i]
  {
    if s != "" {
      if s[0] == sep {
        if i > 0 { PartsPlain(s[1..], sep, i - 1); }
      } else {
        PartsPlain(s[1..], sep, i);
      }
    }
  }

  /** The first step of splitting can be told from the parts. */
  lemma FirstPart(s: string, sep: char)
    requires s != ""
    ensures var r, rest := Split(s, sep), Split(s[1..], sep);
      if s[0] == sep then r[0] == "" && |r| > 1 && r[1..] == rest
      else r[0] != "" && r[0][0] == s[0] && rest == [r[0][1..]] + r[1..]
  {
    var rest := Split(s[1..], sep);
    assert rest == [rest[0]] + rest[1..] && ([s[0]] + rest[0])[1..] == rest[0];
  }

  /** Strings with the same parts are the same. */
  lemma {:induction false} SplitInjective(a: string, b: string, sep: char)
    requires Split(a, sep) == Split(b, sep)
    ensures a == b
  {
    if a != "" { FirstPart(a, sep); }
    if b != "" { FirstPart(b, sep); }
    if a != "" && b != "" {
      SplitInjective(a[1..], b[1..], sep);
      assert a == [a[0]] + a[1..] && b == [b[0]] + b[1..];
    }
  }
}
