module EngineExamples {
  import opened Wrappers
  import opened PyText
  import opened Engine

  /** A line starting with 1-3 digits, at most one whitespace and 3 digits matches the `cylinder` group there. */
  lemma GroupOfPieces(s: string, a: string, sep: string, b: string)
    requires 1 <= |a| <= 3 && AllDigits(a)
    requires |sep| <= 1 && AllSpaces(sep)
    requires |b| == 3 && AllDigits(b)
    requires |a| + |sep| + 3 <= |s| && s[..|a| + |sep| + 3] == a + sep + b
    ensures GroupMatchesAt(s, 0, Group(|a|, |a| + |sep|))
  {
    var u := a + sep + b;
    forall k | 0 <= k < |a| ensures In(Digit, s[k]) { assert s[k] == u[k] == a[k]; }
    forall k | |a| <= k < |a| + |sep| ensures In(Space, s[k]) { assert s[k] == u[k] == sep[k - |a|]; }
    forall k | |a| + |sep| <= k < |u| ensures In(Digit, s[k]) { assert s[k] == u[k] == b[k - |a| - |sep|]; }
  }

  /** The text `" cm3 • <h> cv"` from index `e` on matches the tail of the pattern there. */
  lemma TailOfPieces(s: string, e: nat, h: string)
    requires |h| >= 1 && AllDigits(h)
    requires e <= |s| && s[e..] == " cm3 \U{2022} " + h + " cv"
    ensures TailMatchesAt(s, e, Tail(e + 1, e + 5, Power(e + 7, e + 7 + |h|, e + 8 + |h|)))
  {
    var x := s[e..];
    assert forall i :: 0 <= i < |x| ==> s[e + i] == x[i];
    assert x[0] == ' ' && x[1] == 'c' && x[2] == 'm' && x[3] == '3' && x[4] == ' ' && x[5] == Bullet && x[6] == ' ';
    assert x[7 + |h|] == ' ' && x[8 + |h|] == 'c' && x[9 + |h|] == 'v';
    forall k | e + 7 <= k < e + 7 + |h| ensures In(Digit, s[k]) { assert s[k] == x[k - e] == h[k - e - 7]; }
    assert In(Space, s[e]) && In(Space, s[e + 4]) && In(Space, s[e + 6]) && In(Space, s[e + 7 + |h|]);
  }

  /** The groups of a match at index 0 that is the leftmost one by construction. */
  lemma FieldAtStart(s: string, p: EngineParse, a: string, sep: string, b: string, h: string)
    requires MatchesAt(s, 0, p)
    requires s[0..p.cylinder.leadEnd] == a && s[p.cylinder.leadEnd..p.cylinder.sepEnd] == sep
    requires s[p.cylinder.sepEnd..p.cylinder.End()] == b
    requires s[p.tail.power.hpStart..p.tail.power.hpEnd] == h
    ensures EngineField(Some(s)) == Found(a + (if sep == " " then "" else sep) + b, h)
  {
    EngineFieldGroups(s, 0, p);
  }

  /** A line cut into the advertised pieces yields the digit groups and the horsepower. */
  lemma FieldOfPieces(s: string, a: string, sep: string, b: string, h: string)
    requires 1 <= |a| <= 3 && AllDigits(a)
    requires |sep| <= 1 && AllSpaces(sep)
    requires |b| == 3 && AllDigits(b)
    requires |h| >= 1 && AllDigits(h)
    requires |a| + |sep| + 3 <= |s| && s[..|a| + |sep| + 3] == a + sep + b
    requires s[|a| + |sep| + 3..] == " cm3 \U{2022} " + h + " cv"
    ensures EngineField(Some(s)) == Found(a + (if sep == " " then "" else sep) + b, h)
  {
    var e := |a| + |sep| + 3;
    var u := s[..e];
    GroupOfPieces(s, a, sep, b);
    TailOfPieces(s, e, h);
    var p := EngineParse(Group(|a|, |a| + |sep|), Tail(e + 1, e + 5, Power(e + 7, e + 7 + |h|, e + 8 + |h|)));
    assert s[0..|a|] == a && s[|a|..|a| + |sep|] == sep && s[|a| + |sep|..e] == b by {
      assert s[0..|a|] == u[..|a|];
      assert s[|a|..|a| + |sep|] == u[|a|..|a| + |sep|];
      assert s[|a| + |sep|..e] == u[|a| + |sep|..];
    }
    assert s[e + 7..e + 7 + |h|] == h by {
      assert s[e + 7..e + 7 + |h|] == s[e..][7..7 + |h|];
    }
    FieldAtStart(s, p, a, sep, b, h);
  }

  /**
   * Any engine line of the advertised shape: `cilinder` is the two digit
   * groups with an ASCII-space separator dropped and any other whitespace
   * separator kept; `hp` is the horsepower digits. With `a = "123"`,
   * `sep = " "`, `b = "456"` and `h = "90"` this is `"123456"` and `"90"`.
   */
  lemma EngineLineShape(a: string, sep: string, b: string, h: string)
    requires 1 <= |a| <= 3 && AllDigits(a)
    requires |sep| <= 1 && AllSpaces(sep)
    requires |b| == 3 && AllDigits(b)
    requires |h| >= 1 && AllDigits(h)
    ensures EngineField(Some(a + sep + b + " cm3 \U{2022} " + h + " cv")) == Found(a + (if sep == " " then "" else sep) + b, h)
  {
    var u := a + sep + b;
    var x := " cm3 \U{2022} " + h + " cv";
    var s := u + x;
    assert s == a + sep + b + " cm3 \U{2022} " + h + " cv";
    assert s[..|u|] == u && s[|u|..] == x;
    FieldOfPieces(s, a, sep, b, h);
  }
}
