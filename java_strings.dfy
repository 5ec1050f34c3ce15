/** The few java.lang.String operations the game relies on, on `seq<char>`. */
module JavaStrings {

  /** The pieces of `s` between commas, empty pieces included: "" has one empty piece. */
  function Pieces(s: string): (r: seq<string>)
    ensures |r| >= 1
    ensures forall i :: 0 <= i < |r| ==> CommaFree(r[i])
  {
    if |s| == 0 then [""]
    else
      var rest := Pieces(s[1..]);
      if s[0] == ',' then [""] + rest
      else [[s[0]] + rest[0]] + rest[1..]
  }

  /** Drops the empty strings at the end of `xs`. */
  function StripTrailingEmpty(xs: seq<string>): (r: seq<string>)
    ensures |r| <= |xs| && r == xs[..|r|]
    ensures |r| > 0 ==> r[|r| - 1] != ""
    ensures forall i :: |r| <= i < |xs| ==> xs[i] == ""
  {
    if |xs| > 0 && xs[|xs| - 1] == "" then StripTrailingEmpty(xs[..|xs| - 1]) else xs
  }

  /** `s.split(",")`: a string without a comma splits into itself (so "" gives [""]);
      otherwise all pieces, minus the empty ones at the end. */
  function Split(s: string): (r: seq<string>)
    ensures forall i :: 0 <= i < |r| ==> CommaFree(r[i])
    ensures CommaFree(s) ==> r == [s]
    ensures !CommaFree(s) && |r| > 0 ==> r[|r| - 1] != ""
  {
    if ',' !in s then [s] else StripTrailingEmpty(Pieces(s))
  }

  /** `String.join(",", xs)`. */
  function Join(xs: seq<string>): (r: string)
    ensures |xs| == 0 ==> r == ""
    ensures |xs| >= 1 ==> xs[0] <= r
    ensures |xs| >= 2 ==> |r| > |xs[0]| && r[|xs[0]|] == ','
  {
    if |xs| == 0 then ""
    else if |xs| == 1 then xs[0]
    else xs[0] + "," + Join(xs[1..])
  }

  predicate CommaFree(s: string) {
    ',' !in s
  }

  lemma {:induction false} PiecesOfCommaFree(a: string)
    requires CommaFree(a)
    ensures Pieces(a) == [a]
    decreases |a|
  {
    if |a| > 0 {
      PiecesOfCommaFree(a[1..]);
      assert [a[0]] + a[1..] == a;
    }
  }

  lemma {:induction false} PiecesAfterComma(a: string, b: string)
    requires CommaFree(a)
    ensures Pieces(a + "," + b) == [a] + Pieces(b)
    decreases |a|
  {
    var s := a + "," + b;
    if |a| == 0 {
      assert s[1..] == b;
    } else {
      assert s[1..] == a[1..] + "," + b;
      PiecesAfterComma(a[1..], b);
      assert [a[0]] + a[1..] == a;
    }
  }

  lemma {:induction false} PiecesOfJoin(xs: seq<string>)
    requires |xs| >= 1
    requires forall i :: 0 <= i < |xs| ==> CommaFree(xs[i])
    ensures Pieces(Join(xs)) == xs
    decreases |xs|
  {
    if |xs| == 1 {
      PiecesOfCommaFree(xs[0]);
    } else {
      PiecesOfJoin(xs[1..]);
      PiecesAfterComma(xs[0], Join(xs[1..]));
      assert [xs[0]] + xs[1..] == xs;
    }
  }

  /** Splitting a join gives back the pieces, provided none holds a comma and,
      when there are several, the last one is not empty. */
  lemma {:induction false} SplitJoin(xs: seq<string>)
    requires |xs| >= 1
    requires forall i :: 0 <= i < |xs| ==> CommaFree(xs[i])
    requires |xs| >= 2 ==> xs[|xs| - 1] != ""
    ensures Split(Join(xs)) == xs
  {
    if |xs| == 1 {
      assert Join(xs) == xs[0];
    } else {
      var j := Join(xs);
      assert j == xs[0] + "," + Join(xs[1..]);
      assert j[|xs[0]|] == ',';
      PiecesOfJoin(xs);
    }
  }

  /** Java's `trim()`: drops every character up to U+0020 at both ends. */
  function Trim(s: string): (r: string)
    ensures |r| <= |s|
    ensures |r| > 0 ==> r[0] > ' ' && r[|r| - 1] > ' '
  {
    TrimEnd(TrimStart(s))
  }

  function TrimStart(s: string): (r: string)
    ensures |r| <= |s| && r == s[|s| - |r|..]
    ensures |r| > 0 ==> r[0] > ' '
  {
    if |s| > 0 && s[0] <= ' ' then TrimStart(s[1..]) else s
  }

  function TrimEnd(s: string): (r: string)
    ensures |r| <= |s| && r == s[..|r|]
    ensures |r| > 0 ==> r[|r| - 1] > ' '
    ensures |r| > 0 && s[0] > ' ' ==> r[0] > ' '
  {
    if |s| > 0 && s[|s| - 1] <= ' ' then TrimEnd(s[..|s| - 1]) else s
  }

  /** Every character is one `trim` drops. */
  predicate Blank(s: string) {
    forall i :: 0 <= i < |s| ==> s[i] <= ' '
  }

  lemma {:induction false} TrimStartDropsLead(lead: string, rest: string)
    requires Blank(lead)
    requires |rest| > 0 ==> rest[0] > ' '
    ensures TrimStart(lead + rest) == rest
    decreases |lead|
  {
    if |lead| > 0 {
      assert (lead + rest)[1..] == lead[1..] + rest;
      TrimStartDropsLead(lead[1..], rest);
    } else {
      assert lead + rest == rest;
    }
  }

  lemma {:induction false} TrimEndDropsTrail(rest: string, trail: string)
    requires Blank(trail)
    requires |rest| > 0 ==> rest[|rest| - 1] > ' '
    ensures TrimEnd(rest + trail) == rest
    decreases |trail|
  {
    if |trail| > 0 {
      var init := trail[..|trail| - 1];
      assert (rest + trail)[..|rest + trail| - 1] == rest + init;
      TrimEndDropsTrail(rest, init);
    } else {
      assert rest + trail == rest;
    }
  }

  /** `trim` removes exactly the blank padding around a core that neither starts nor ends blank. */
  lemma TrimDropsPadding(lead: string, core: string, trail: string)
    requires Blank(lead) && Blank(trail)
    requires |core| > 0 ==> core[0] > ' ' && core[|core| - 1] > ' '
    ensures Trim(lead + core + trail) == core
  {
    if |core| > 0 {
      assert lead + core + trail == lead + (core + trail);
      TrimStartDropsLead(lead, core + trail);
      TrimEndDropsTrail(core, trail);
    } else {
      var blanks := lead + trail;
      assert lead + core + trail == blanks + "";
      assert Blank(blanks) by {
        forall i | 0 <= i < |blanks| ensures blanks[i] <= ' ' {
          if i >= |lead| { assert blanks[i] == trail[i - |lead|]; }
        }
      }
      TrimStartDropsLead(blanks, "");
    }
  }

  function LowerChar(c: char): char {
    if 'A' <= c <= 'Z' then (c as int - 'A' as int + 'a' as int) as char else c
  }

  /** `toLowerCase()` on the ASCII letters. */
  function ToLower(s: string): (r: string)
    ensures |r| == |s|
    ensures forall i :: 0 <= i < |s| ==> r[i] == LowerChar(s[i])
    ensures forall i :: 0 <= i < |s| ==> !('A' <= r[i] <= 'Z')
  {
    if |s| == 0 then "" else [LowerChar(s[0])] + ToLower(s[1..])
  }
}
