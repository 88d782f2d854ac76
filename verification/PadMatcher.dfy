/** The pad-name matcher of the pipeline: two cursors over two names, either of which may
    hold "%u" placeholders. */
module PadMatcher {

  predicate IsDigit(c: char) { '0' <= c <= '9' }

  predicate AllDigits(s: string) { forall i :: 0 <= i < |s| ==> IsDigit(s[i]) }

  /** What the loop decides from its current position: `s` and `t` are the unread parts of the
      two names, `f1` and `f2` the placeholder modes (0 outside, 1 just after '%', 2 inside). */
  function Scan(s: string, t: string, f1: nat, f2: nat): bool
    decreases |s| + |t|
  {
    if s == "" || t == "" then
      (s == "" && t == "") || f1 > 0 || f2 > 0
    else if f1 > 0 then
      if f1 == 1 && s[0] != 'u' then false
      else if !IsDigit(t[0]) then Scan(s[1..], t, 0, f2)
      else Scan(s, t[1..], 2, f2)
    else if f2 > 0 then
      if f2 == 1 && t[0] != 'u' then false
      else if !IsDigit(s[0]) then Scan(s, t[1..], f1, 0)
      else Scan(s[1..], t, f1, 2)
    else if s[0] == t[0] then Scan(s[1..], t[1..], 0, 0)
    else if s[0] == '%' then IsDigit(t[0]) && Scan(s[1..], t[1..], 1, 0)
    else if t[0] == '%' then IsDigit(s[0]) && Scan(s[1..], t[1..], 0, 1)
    else false
  }

  function Matches(name1: string, name2: string): bool { Scan(name1, name2, 0, 0) }

  /** The matcher itself, loop and all. */
  method MatchPadName(name1: string, name2: string) returns (r: bool)
    ensures r == Matches(name1, name2)
  {
    var f1: nat, f2: nat := 0, 0;
    var i, j := 0, 0;
    while i < |name1| && j < |name2|
      invariant 0 <= i <= |name1| && 0 <= j <= |name2|
      invariant Matches(name1, name2) == Scan(name1[i..], name2[j..], f1, f2)
      decreases |name1| - i + |name2| - j
    {
      var c1, c2 := name1[i], name2[j];
      if f1 > 0 {
        if f1 == 1 {
          if c1 != 'u' { return false; }
          f1 := 2;
        }
        if !IsDigit(c2) {
          f1 := 0;
          i := i + 1;
        } else {
          j := j + 1;
        }
      } else if f2 > 0 {
        if f2 == 1 {
          if c2 != 'u' { return false; }
          f2 := 2;
        }
        if !IsDigit(c1) {
          f2 := 0;
          j := j + 1;
        } else {
          i := i + 1;
        }
      } else {
        if c1 != c2 {
          if c1 == '%' {
            if !IsDigit(c2) { return false; }
            f1 := 1;
          } else if c2 == '%' {
            if !IsDigit(c1) { return false; }
            f2 := 1;
          } else {
            return false;
          }
        }
        i, j := i + 1, j + 1;
      }
    }
    return (i == |name1| && j == |name2|) || f1 > 0 || f2 > 0;
  }

  // ---- Laws on all strings ------------------------------------------------------------

  lemma {:induction false} ScanSymmetric(s: string, t: string, f1: nat, f2: nat)
    requires f1 == 0 || f2 == 0
    ensures Scan(s, t, f1, f2) == Scan(t, s, f2, f1)
    decreases |s| + |t|
  {
    if s != "" && t != "" {
      ScanSymmetric(s[1..], t[1..], 0, 0);
      ScanSymmetric(s[1..], t[1..], 1, 0);
      ScanSymmetric(s[1..], t[1..], 0, 1);
      ScanSymmetric(s[1..], t, 0, 0);
      ScanSymmetric(s, t[1..], 0, 0);
      ScanSymmetric(s, t[1..], 2, 0);
      ScanSymmetric(s[1..], t, 0, 2);
    }
  }

  lemma MatchSymmetric(a: string, b: string)
    ensures Matches(a, b) == Matches(b, a)
  {
    ScanSymmetric(a, b, 0, 0);
  }

  lemma {:induction false} MatchReflexive(a: string)
    ensures Matches(a, a)
  {
    if a != "" { MatchReflexive(a[1..]); }
  }

  // ---- The language of a template -----------------------------------------------------

  /** Every '%' starts a "%u" that is followed by the end or by a character that is neither a
      digit nor '%'. */
  predicate WellFormed(tpl: string)
  {
    if tpl == "" then true
    else if tpl[0] != '%' then WellFormed(tpl[1..])
    else |tpl| >= 2 && tpl[1] == 'u' && (|tpl| == 2 || (!IsDigit(tpl[2]) && tpl[2] != '%')) && WellFormed(tpl[2..])
  }

  /** Every '%' starts a "%u". */
  predicate Placeholders(tpl: string)
  {
    if tpl == "" then true
    else if tpl[0] != '%' then Placeholders(tpl[1..])
    else |tpl| >= 2 && tpl[1] == 'u' && Placeholders(tpl[2..])
  }

  /** Nothing but digits and placeholders. */
  predicate Numeric(tpl: string)
  {
    if tpl == "" then true
    else if tpl[0] != '%' then IsDigit(tpl[0]) && Numeric(tpl[1..])
    else |tpl| >= 2 && Numeric(tpl[2..])
  }

  /** What follows a placeholder starts with neither a digit nor another one, unless there is
      nothing else to come. */
  predicate Safe(tpl: string)
  {
    if |tpl| < 2 then true
    else if tpl[0] != '%' then Safe(tpl[1..])
    else Numeric(tpl[2..]) || (!IsDigit(tpl[2]) && tpl[2] != '%' && Safe(tpl[2..]))
  }

  /** The number of placeholders. */
  function Holes(tpl: string): nat
  {
    if |tpl| < 2 then 0
    else if tpl[0] == '%' then 1 + Holes(tpl[2..])
    else Holes(tpl[1..])
  }

  /** Write the k-th argument in place of the k-th "%u". */
  function Render(tpl: string, args: seq<string>): string
    requires |args| >= Holes(tpl)
  {
    if |tpl| < 2 then tpl
    else if tpl[0] == '%' then args[0] + Render(tpl[2..], args[1..])
    else tpl[..1] + Render(tpl[1..], args)
  }

  predicate Numerals(args: seq<string>)
  {
    forall i :: 0 <= i < |args| ==> args[i] != "" && AllDigits(args[i])
  }

  /** `name` is `tpl` with a numeral for every placeholder. */
  ghost predicate Instance(tpl: string, name: string)
  {
    exists args: seq<string> :: |args| == Holes(tpl) && Numerals(args) && name == Render(tpl, args)
  }

  /** `p` is the length of the whole template or of a prefix that ends with a placeholder. */
  predicate Cut(tpl: string, p: nat)
  {
    p == |tpl| || (2 <= p < |tpl| && tpl[p - 2] == '%')
  }

  ghost predicate Accepts(tpl: string, name: string)
  {
    exists p: nat :: p <= |tpl| && Cut(tpl, p) && Instance(tpl[..p], name)
  }

  /** The length of the run of digits at the start. */
  function DigitRun(s: string): (k: nat)
    ensures k <= |s|
    ensures forall i :: 0 <= i < |s| && i < k ==> IsDigit(s[i])
    ensures forall i :: 0 <= i < |s| && i == k ==> !IsDigit(s[i])
  {
    if s == "" || !IsDigit(s[0]) then 0 else 1 + DigitRun(s[1..])
  }

  predicate NoPercent(s: string) { '%' !in s }

  /** The matcher's reading of a template: each "%u" takes the whole run of digits, and a name
      that ends inside a run is accepted whatever the template still holds. */
  predicate Reads(tpl: string, name: string)
    decreases |tpl|
  {
    if tpl == "" then name == ""
    else if tpl[0] != '%' || |tpl| < 2 then name != "" && name[0] == tpl[0] && Reads(tpl[1..], name[1..])
    else
      var k := DigitRun(name);
      k >= 1 && (k == |name| || Reads(tpl[2..], name[k..]))
  }

  lemma {:induction false} ScanInPlaceholder(s: string, t: string, f1: nat)
    requires s != "" && s[0] == 'u' && f1 in {1, 2}
    ensures Scan(s, t, f1, 0) == (DigitRun(t) == |t| || Scan(s[1..], t[DigitRun(t)..], 0, 0))
    decreases |t|
  {
    if t != "" && IsDigit(t[0]) {
      ScanInPlaceholder(s, t[1..], 2);
      assert t[1..][DigitRun(t[1..])..] == t[DigitRun(t)..];
    } else if t != "" {
      assert t[DigitRun(t)..] == t;
    }
  }

  lemma {:induction false} ScanReads(tpl: string, name: string)
    requires Placeholders(tpl) && NoPercent(name)
    ensures Scan(tpl, name, 0, 0) == Reads(tpl, name)
    decreases |tpl|
  {
    if tpl != "" && name != "" {
      if tpl[0] != '%' {
        ScanReads(tpl[1..], name[1..]);
      } else if IsDigit(name[0]) {
        ScanInPlaceholder(tpl[1..], name[1..], 1);
        assert tpl[1..][1..] == tpl[2..];
        assert name[1..][DigitRun(name[1..])..] == name[DigitRun(name)..];
        ScanReads(tpl[2..], name[DigitRun(name)..]);
      }
    }
  }

  lemma {:induction false} ReadsIsInstance(tpl: string, name: string) returns (p: nat, args: seq<string>)
    requires WellFormed(tpl) && Reads(tpl, name)
    ensures p <= |tpl| && Cut(tpl, p) && |args| == Holes(tpl[..p]) && Numerals(args)
    ensures name == Render(tpl[..p], args)
    decreases |tpl|
  {
    if tpl == "" {
      p, args := 0, [];
    } else if tpl[0] != '%' {
      var q, rest := ReadsIsInstance(tpl[1..], name[1..]);
      p, args := q + 1, rest;
      assert tpl[..p][1..] == tpl[1..][..q];
      assert name == tpl[..1] + name[1..];
    } else {
      var k := DigitRun(name);
      if k == |name| {
        p, args := 2, [name];
        assert name[..k] == name;
        assert tpl[..2][2..] == "";
        assert Render(tpl[..2], args) == name + Render("", args[1..]);
      } else {
        var q, rest := ReadsIsInstance(tpl[2..], name[k..]);
        p, args := q + 2, [name[..k]] + rest;
        assert tpl[..p][2..] == tpl[2..][..q];
        assert args[1..] == rest;
        assert name == name[..k] + name[k..];
      }
    }
  }

  lemma {:induction false} DigitRunSplit(a: string, b: string)
    requires AllDigits(a) && (b == "" || !IsDigit(b[0]))
    ensures DigitRun(a + b) == |a|
  {
    if a == "" {
      assert a + b == b;
    } else {
      assert (a + b)[1..] == a[1..] + b;
      DigitRunSplit(a[1..], b);
    }
  }

  lemma {:induction false} InstanceIsRead(tpl: string, p: nat, args: seq<string>)
    requires WellFormed(tpl) && p <= |tpl| && Cut(tpl, p)
    requires |args| == Holes(tpl[..p]) && Numerals(args)
    ensures Reads(tpl, Render(tpl[..p], args))
    decreases |tpl|
  {
    if tpl != "" {
      var name := Render(tpl[..p], args);
      if tpl[0] != '%' {
        assert tpl[..p][1..] == tpl[1..][..p - 1];
        if p == 1 {
          assert tpl[1..][..0] == "" && name == tpl;
        }
        InstanceIsRead(tpl[1..], p - 1, args);
        assert name[1..] == Render(tpl[1..][..p - 1], args);
      } else {
        assert tpl[..p][2..] == tpl[2..][..p - 2];
        var rest := Render(tpl[2..][..p - 2], args[1..]);
        assert name == args[0] + rest;
        if p > 2 {
          assert tpl[2..][..p - 2][0] == tpl[2];
        }
        DigitRunSplit(args[0], rest);
        if rest != "" {
          InstanceIsRead(tpl[2..], p - 2, args[1..]);
          assert name[|args[0]|..] == rest;
        }
      }
    }
  }

  /** The exact language of the matcher on well-formed templates. */
  lemma MatcherLanguage(tpl: string, name: string)
    requires WellFormed(tpl) && NoPercent(name)
    ensures Matches(tpl, name) <==> Accepts(tpl, name)
  {
    WellFormedIsSafe(tpl);
    ScanReads(tpl, name);
    if Reads(tpl, name) {
      var p, args := ReadsIsInstance(tpl, name);
      assert Instance(tpl[..p], name);
    }
    if Accepts(tpl, name) {
      var p: nat :| p <= |tpl| && Cut(tpl, p) && Instance(tpl[..p], name);
      var args: seq<string> :| |args| == Holes(tpl[..p]) && Numerals(args) && name == Render(tpl[..p], args);
      InstanceIsRead(tpl, p, args);
    }
  }

  lemma {:induction false} RenderHasNoPercent(tpl: string, args: seq<string>)
    requires Placeholders(tpl) && |args| == Holes(tpl) && Numerals(args)
    ensures NoPercent(Render(tpl, args))
    decreases |tpl|
  {
    if |tpl| >= 2 {
      if tpl[0] == '%' {
        RenderHasNoPercent(tpl[2..], args[1..]);
      } else {
        RenderHasNoPercent(tpl[1..], args);
      }
    }
  }

  lemma {:induction false} WellFormedIsSafe(tpl: string)
    requires WellFormed(tpl)
    ensures Placeholders(tpl) && Safe(tpl)
    decreases |tpl|
  {
    if tpl != "" { WellFormedIsSafe(if tpl[0] == '%' then tpl[2..] else tpl[1..]); }
  }

  lemma {:induction false} NumericRendersDigits(tpl: string, args: seq<string>)
    requires Numeric(tpl) && |args| == Holes(tpl) && Numerals(args)
    ensures AllDigits(Render(tpl, args))
    decreases |tpl|
  {
    if |tpl| >= 2 {
      if tpl[0] == '%' { NumericRendersDigits(tpl[2..], args[1..]); }
      else { NumericRendersDigits(tpl[1..], args); }
    }
  }

  lemma {:induction false} AllDigitsRun(s: string)
    requires AllDigits(s)
    ensures DigitRun(s) == |s|
  {
    if s != "" { AllDigitsRun(s[1..]); }
  }

  lemma {:induction false} SafeIsRead(tpl: string, args: seq<string>)
    requires Placeholders(tpl) && Safe(tpl) && |args| == Holes(tpl) && Numerals(args)
    ensures Reads(tpl, Render(tpl, args))
    decreases |tpl|
  {
    var name := Render(tpl, args);
    if |tpl| == 1 {
      assert tpl[1..] == "" && name[1..] == "";
    } else if |tpl| >= 2 && tpl[0] != '%' {
      SafeIsRead(tpl[1..], args);
      assert name[1..] == Render(tpl[1..], args);
    } else if |tpl| >= 2 {
      var rest := Render(tpl[2..], args[1..]);
      assert name == args[0] + rest;
      if Numeric(tpl[2..]) {
        NumericRendersDigits(tpl[2..], args[1..]);
        AllDigitsRun(name);
      } else {
        DigitRunSplit(args[0], rest);
        SafeIsRead(tpl[2..], args[1..]);
        assert name[|args[0]|..] == rest;
      }
    }
  }

  /** A name whose first character after its digits is no digit, of a template with more to it
      than digits and placeholders. */
  lemma {:induction false} RunEndsEarly(tpl: string, args: seq<string>)
    requires Placeholders(tpl) && !Numeric(tpl) && |args| == Holes(tpl) && Numerals(args)
    ensures DigitRun(Render(tpl, args)) < |Render(tpl, args)|
    decreases |tpl|
  {
    var name := Render(tpl, args);
    if |tpl| >= 2 && tpl[0] == '%' {
      RunEndsEarly(tpl[2..], args[1..]);
      var rest := Render(tpl[2..], args[1..]);
      var k := DigitRun(rest);
      assert name[|args[0]| + k] == rest[k] && !IsDigit(rest[k]);
      assert name[..|name|] == name;
    } else if |tpl| >= 2 && IsDigit(tpl[0]) {
      RunEndsEarly(tpl[1..], args);
      assert name[1..] == Render(tpl[1..], args);
    }
  }

  /** An unsafe template does not read any of its own renderings. */
  lemma {:induction false} UnsafeIsNotRead(tpl: string, args: seq<string>)
    requires Placeholders(tpl) && !Safe(tpl) && |args| == Holes(tpl) && Numerals(args)
    ensures !Reads(tpl, Render(tpl, args))
    decreases |tpl|
  {
    var name := Render(tpl, args);
    if tpl[0] != '%' {
      UnsafeIsNotRead(tpl[1..], args);
      assert name[1..] == Render(tpl[1..], args);
    } else {
      var rest := Render(tpl[2..], args[1..]);
      assert name == args[0] + rest;
      RunEndsEarly(tpl, args);
      if IsDigit(tpl[2]) || tpl[2] == '%' {
        var k := DigitRun(name);
        assert !IsDigit(name[k]) && name[k..][0] == name[k];
      } else {
        DigitRunSplit(args[0], rest);
        UnsafeIsNotRead(tpl[2..], args[1..]);
        assert name[|args[0]|..] == rest;
      }
    }
  }

  /** Which templates match what is rendered from them: the safe ones match every rendering, in
      either argument order, and the others match none. */
  lemma RenderedPadMatches(tpl: string, args: seq<string>)
    requires Placeholders(tpl) && |args| == Holes(tpl) && Numerals(args)
    ensures Matches(tpl, Render(tpl, args)) <==> Safe(tpl)
    ensures Matches(Render(tpl, args), tpl) <==> Safe(tpl)
  {
    var name := Render(tpl, args);
    RenderHasNoPercent(tpl, args);
    ScanReads(tpl, name);
    MatchSymmetric(tpl, name);
    if Safe(tpl) { SafeIsRead(tpl, args); } else { UnsafeIsNotRead(tpl, args); }
  }

  /** What a placeholder takes: the ten digits, and nothing else, alone. */
  lemma OneDigit(c: char)
    ensures Matches("%u", [c]) <==> c in "0123456789"
  {
    var tpl, name, digits := "%u", [c], "0123456789";
    assert tpl[1..] == "u" && name[1..] == "";
    assert Scan(tpl, name, 0, 0) == (IsDigit(c) && Scan("u", "", 1, 0));
    if '0' <= c <= '9' { assert digits[c as int - '0' as int] == c; }
  }

  /** Such a template: "%u0a" does not match "10a", which is named by it. */
  lemma AnUnsafeTemplate()
    ensures Placeholders("%u0a") && Numerals(["1"]) && "10a" == Render("%u0a", ["1"])
    ensures !Matches("%u0a", "10a") && !Matches("10a", "%u0a")
  {
    var tpl := "%u0a";
    assert tpl[2..] == "0a" && tpl[2..][1..] == "a" && tpl[2..][1..][1..] == "";
    assert Render(tpl[2..], []) == "0a";
    RenderedPadMatches(tpl, ["1"]);
  }

  // ---- Two templates ----------------------------------------------------------------------------

  /** Reading two templates against each other, a placeholder at a time: two placeholders that meet
      agree; a placeholder that meets a digit takes the whole run of digits, and is satisfied if the other
      name ends in it; all else must be the same. */
  predicate Meets(s: string, t: string)
    decreases |s| + |t|
  {
    if s == "" || t == "" then s == t
    else if s[0] == '%' && t[0] == '%' then |s| >= 2 && |t| >= 2 && Meets(s[2..], t[2..])
    else if s[0] == '%' then
      |s| >= 2 && IsDigit(t[0]) && (DigitRun(t) == |t| || Meets(s[2..], t[DigitRun(t)..]))
    else if t[0] == '%' then
      |t| >= 2 && IsDigit(s[0]) && (DigitRun(s) == |s| || Meets(s[DigitRun(s)..], t[2..]))
    else s[0] == t[0] && Meets(s[1..], t[1..])
  }

  lemma {:induction false} MeetsSymmetric(s: string, t: string)
    ensures Meets(s, t) == Meets(t, s)
    decreases |s| + |t|
  {
    if s != "" && t != "" {
      if s[0] == '%' && t[0] == '%' {
        if |s| >= 2 && |t| >= 2 { MeetsSymmetric(s[2..], t[2..]); }
      } else if s[0] == '%' {
        if |s| >= 2 && IsDigit(t[0]) { MeetsSymmetric(s[2..], t[DigitRun(t)..]); }
      } else if t[0] == '%' {
        if |t| >= 2 && IsDigit(s[0]) { MeetsSymmetric(s[DigitRun(s)..], t[2..]); }
      } else {
        MeetsSymmetric(s[1..], t[1..]);
      }
    }
  }

  lemma {:induction false} PlaceholdersAfterDigits(t: string)
    requires Placeholders(t)
    ensures Placeholders(t[DigitRun(t)..])
  {
    if t != "" && IsDigit(t[0]) {
      PlaceholdersAfterDigits(t[1..]);
      assert t[1..][DigitRun(t[1..])..] == t[DigitRun(t)..];
    } else {
      assert t[0..] == t;
    }
  }

  /** What the matcher decides of any two templates whose every percent sign starts a placeholder. */
  lemma {:induction false} MatchesMeets(s: string, t: string)
    requires Placeholders(s) && Placeholders(t)
    ensures Matches(s, t) == Meets(s, t)
    decreases |s| + |t|, if s != "" && s[0] == '%' then 0 else 1
  {
    if s == "" || t == "" {
    } else if s[0] == '%' && t[0] == '%' {
      MatchesMeets(s[2..], t[2..]);
      assert s[1..][0] == t[1..][0] == 'u';
      assert s[1..][1..] == s[2..] && t[1..][1..] == t[2..];
      assert Scan(s, t, 0, 0) == Scan(s[1..], t[1..], 0, 0) == Scan(s[1..][1..], t[1..][1..], 0, 0);
    } else if s[0] == '%' {
      if IsDigit(t[0]) {
        ScanInPlaceholder(s[1..], t[1..], 1);
        assert s[1..][1..] == s[2..] && t[1..][DigitRun(t[1..])..] == t[DigitRun(t)..];
        PlaceholdersAfterDigits(t);
        MatchesMeets(s[2..], t[DigitRun(t)..]);
      }
    } else if t[0] == '%' {
      MatchSymmetric(s, t);
      MeetsSymmetric(s, t);
      MatchesMeets(t, s);
    } else if s[0] == t[0] {
      MatchesMeets(s[1..], t[1..]);
    }
  }

  /** A name that two templates which meet have in common. */
  function Common(s: string, t: string): string
    decreases |s| + |t|
  {
    if s == "" || t == "" then ""
    else if s[0] == '%' && t[0] == '%' then "0" + if |s| >= 2 && |t| >= 2 then Common(s[2..], t[2..]) else ""
    else if s[0] == '%' then
      t[..DigitRun(t)] + if |s| >= 2 then Common(s[2..], t[DigitRun(t)..]) else ""
    else if t[0] == '%' then
      s[..DigitRun(s)] + if |t| >= 2 then Common(s[DigitRun(s)..], t[2..]) else ""
    else s[..1] + Common(s[1..], t[1..])
  }

  lemma {:induction false} CommonSymmetric(s: string, t: string)
    requires Meets(s, t)
    ensures Common(s, t) == Common(t, s)
    decreases |s| + |t|
  {
    if s != "" && t != "" {
      if s[0] == '%' && t[0] == '%' {
        CommonSymmetric(s[2..], t[2..]);
      } else if s[0] == '%' {
        if DigitRun(t) < |t| { CommonSymmetric(s[2..], t[DigitRun(t)..]); }
      } else if t[0] == '%' {
        if DigitRun(s) < |s| { CommonSymmetric(s[DigitRun(s)..], t[2..]); }
      } else {
        CommonSymmetric(s[1..], t[1..]);
        assert s[..1] == t[..1];
      }
    }
  }

  /** Neither a digit nor a placeholder comes first. */
  predicate PlainHead(s: string) { s == "" || (!IsDigit(s[0]) && s[0] != '%') }

  /** After a placeholder of a well-formed template, the common name goes on where the run of digits ends. */
  lemma CommonHead(s: string, t: string)
    requires Meets(s, t) && PlainHead(s)
    ensures Common(s, t) == "" || !IsDigit(Common(s, t)[0])
    ensures PlainHead(t) ==> (Common(s, t) == "" <==> s == "")
  {
  }

  /** Digits are read as they stand. */
  lemma {:induction false} ReadsDigits(t: string, k: nat, rest: string)
    requires k <= |t| && AllDigits(t[..k])
    ensures Reads(t, t[..k] + rest) == Reads(t[k..], rest)
    decreases k
  {
    if k > 0 {
      assert t[..k][0] == t[0] && IsDigit(t[0]);
      assert t[1..][..k - 1] == t[..k][1..] && (t[..k] + rest)[1..] == t[1..][..k - 1] + rest;
      ReadsDigits(t[1..], k - 1, rest);
      assert t[1..][k - 1..] == t[k..];
    } else {
      assert t[..0] + rest == rest && t[0..] == t;
    }
  }

  lemma {:induction false} WellFormedAfterDigits(t: string)
    requires WellFormed(t)
    ensures WellFormed(t[DigitRun(t)..])
  {
    if t != "" && IsDigit(t[0]) {
      WellFormedAfterDigits(t[1..]);
      assert t[1..][DigitRun(t[1..])..] == t[DigitRun(t)..];
    } else {
      assert t[0..] == t;
    }
  }

  /** A placeholder that meets digits: the common name is those digits and what the rest have in common. */
  lemma CommonAtDigits(s: string, t: string)
    requires WellFormed(s) && s != "" && s[0] == '%' && t != "" && IsDigit(t[0])
    requires var k := DigitRun(t); k == |t| || Meets(s[2..], t[k..])
    requires var k := DigitRun(t); var c := Common(s[2..], t[k..]);
             NoPercent(c) && (k < |t| ==> Reads(s[2..], c) && Reads(t[k..], c))
    ensures NoPercent(Common(s, t)) && Reads(s, Common(s, t)) && Reads(t, Common(s, t))
  {
    var k := DigitRun(t);
    var c := Common(s[2..], t[k..]);
    assert Common(s, t) == t[..k] + c;
    assert AllDigits(t[..k]);
    ReadsDigits(t, k, c);
    assert k < |t| ==> t[k..][0] == t[k];
    if k < |t| { CommonHead(s[2..], t[k..]); }
    DigitRunSplit(t[..k], c);
    assert (t[..k] + c)[k..] == c;
  }

  lemma {:induction false} CommonIsRead(s: string, t: string)
    requires WellFormed(s) && WellFormed(t) && Meets(s, t)
    ensures NoPercent(Common(s, t)) && Reads(s, Common(s, t)) && Reads(t, Common(s, t))
    decreases |s| + |t|, if s != "" && s[0] == '%' then 0 else 1
  {
    if s == "" || t == "" {
    } else if s[0] == '%' && t[0] == '%' {
      CommonIsRead(s[2..], t[2..]);
      var c := Common(s[2..], t[2..]);
      CommonHead(s[2..], t[2..]);
      DigitRunSplit("0", c);
      assert ("0" + c)[1..] == c;
    } else if s[0] == '%' {
      var k := DigitRun(t);
      WellFormedAfterDigits(t);
      if k < |t| { CommonIsRead(s[2..], t[k..]); }
      CommonAtDigits(s, t);
    } else if t[0] == '%' {
      MeetsSymmetric(s, t);
      CommonSymmetric(s, t);
      CommonIsRead(t, s);
    } else {
      CommonIsRead(s[1..], t[1..]);
      assert (s[..1] + Common(s[1..], t[1..]))[1..] == Common(s[1..], t[1..]);
    }
  }

  /** Two well-formed templates that match each other have a name that matches both. */
  lemma MatchingTemplatesShareAName(s: string, t: string) returns (name: string)
    requires WellFormed(s) && WellFormed(t) && Matches(s, t)
    ensures NoPercent(name) && Matches(s, name) && Matches(t, name)
  {
    WellFormedIsSafe(s);
    WellFormedIsSafe(t);
    MatchesMeets(s, t);
    CommonIsRead(s, t);
    name := Common(s, t);
    ScanReads(s, name);
    ScanReads(t, name);
  }

  /** But to share a name is not enough: "%u" and "1%u" both match "12" and not each other. */
  lemma SharedNameIsNotEnough()
    ensures Matches("%u", "12") && Matches("1%u", "12") && !Matches("%u", "1%u")
  {
    var a, b, c := "%u", "1%u", "12";
    assert a[1..] == "u" && b[1..] == "%u" && c[1..] == "2" && b[1..][1..] == "u" && a[1..][1..] == "";
  }
}
