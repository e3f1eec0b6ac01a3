/** Strings as Go compares and splits them. */
module GoStrings {

  /** Go's order on strings. */
  predicate StringLess(a: string, b: string) {
    if b == [] then false
    else if a == [] then true
    else a[0] < b[0] || (a[0] == b[0] && StringLess(a[1..], b[1..]))
  }

  lemma {:induction false} StringTrichotomy(a: string, b: string)
    ensures a == b || StringLess(a, b) || StringLess(b, a)
    ensures !(StringLess(a, b) && StringLess(b, a)) && !StringLess(a, a)
  {
    if a != [] && b != [] {
      StringTrichotomy(a[1..], b[1..]);
      assert a == [a[0]] + a[1..] && b == [b[0]] + b[1..];
    }
    if a != [] {
      StringTrichotomy(a[1..], a[1..]);
    }
  }

  lemma {:induction false} StringTransitive(a: string, b: string, c: string)
    requires StringLess(a, b) && StringLess(b, c)
    ensures StringLess(a, c)
  {
    if a != [] && b != [] && c != [] && a[0] == b[0] && b[0] == c[0] {
      StringTransitive(a[1..], b[1..], c[1..]);
    }
  }

  /** The parts of `s` between its slashes. */
  function Segments(s: string): (r: seq<string>)
    ensures r != []
  {
    if s == [] then [""]
    else if s[0] == '/' then [""] + Segments(s[1..])
    else
      var rest := Segments(s[1..]);
      [[s[0]] + rest[0]] + rest[1..]
  }

  lemma {:induction false} SegmentsStep(p: string, s: string)
    requires p != [] && s != [] && p[0] == s[0]
    ensures Segments(p) <= Segments(s) <==> Segments(p[1..]) <= Segments(s[1..])
  {
    var a, b := Segments(p[1..]), Segments(s[1..]);
    if p[0] == '/' {
      assert Segments(p)[1..] == a && Segments(s)[1..] == b;
    } else {
      assert Segments(p)[0][1..] == a[0] && Segments(s)[0][1..] == b[0];
      assert Segments(p)[1..] == a[1..] && Segments(s)[1..] == b[1..];
    }
  }

  lemma {:induction false} FirstSegment(s: string)
    ensures s == [] || s[0] == '/' ==> Segments(s)[0] == ""
    ensures s != [] && s[0] != '/' ==> Segments(s)[0] != "" && Segments(s)[0][0] == s[0]
    ensures s != [] && s[0] == '/' ==> |Segments(s)| > 1
  {
  }

  lemma {:induction false} SegmentsDiffer(p: string, s: string)
    requires p == [] || s == [] || p[0] != s[0]
    ensures Segments(p) <= Segments(s) <==> s == p || p + "/" <= s
  {
    FirstSegment(p);
    FirstSegment(s);
    if p == [] {
      assert p + "/" == "/";
    } else if s == [] {
      assert |Segments(s)| == 1;
    } else {
      assert (p + "/")[0] == p[0];
      assert Segments(p)[0] != Segments(s)[0];
    }
  }

  /** A segment list is a prefix exactly when the string is followed by a slash or by nothing. */
  lemma {:induction false} SegmentPrefix(p: string, s: string)
    ensures Segments(p) <= Segments(s) <==> s == p || p + "/" <= s
  {
    if p != [] && s != [] && p[0] == s[0] {
      SegmentPrefix(p[1..], s[1..]);
      assert s == [s[0]] + s[1..] && p == [p[0]] + p[1..];
      assert p + "/" == [p[0]] + (p[1..] + "/");
      SegmentsStep(p, s);
    } else {
      SegmentsDiffer(p, s);
    }
  }
}
