/** `generateSlug` of the business setup page (app/dashboard/setup/page.tsx):
    lower-case the name, turn every run of characters other than a-z and 0-9
    into one '-', then drop one '-' at the start and one at the end. */
module Slug {
  import opened Seqs

  /** A character the slug keeps as it is: the class `[a-z0-9]`. */
  predicate IsSlugAlnum(c: char) { 'a' <= c <= 'z' || '0' <= c <= '9' }

  /** A character a slug may contain. */
  predicate IsSlugChar(c: char) { IsSlugAlnum(c) || c == '-' }

  /** `toLowerCase` on one character, for the ASCII letters. */
  function LowerChar(c: char): (l: char)
    ensures 'A' <= c <= 'Z' ==> 'a' <= l <= 'z' && l as int - c as int == 32
    ensures !('A' <= c <= 'Z') ==> l == c
  {
    if 'A' <= c <= 'Z' then (c as int + 32) as char else c
  }

  /** `toLowerCase` on a string, character by character. */
  function ToLower(s: string): (l: string)
    ensures |l| == |s|
    ensures forall i :: 0 <= i < |s| ==> l[i] == LowerChar(s[i])
  {
    seq(|s|, i requires 0 <= i < |s| => LowerChar(s[i]))
  }

  /** The rest of `s` after its leading run of non-`[a-z0-9]` characters. */
  function SkipRun(s: string): (rest: string)
    ensures |rest| <= |s|
    ensures rest == [] || IsSlugAlnum(rest[0])
  {
    if s != [] && !IsSlugAlnum(s[0]) then SkipRun(s[1..]) else s
  }

  /** `.replace(/[^a-z0-9]+/g, '-')`: every maximal run of other characters
      becomes a single '-'. */
  function CollapseRuns(s: string): (r: string)
    decreases |s|
  {
    if s == [] then []
    else if IsSlugAlnum(s[0]) then [s[0]] + CollapseRuns(s[1..])
    else "-" + CollapseRuns(SkipRun(s[1..]))
  }

  /** `.replace(/^-|-$/g, '')`: one '-' is dropped at the start and one at the end. */
  function TrimDashes(s: string): (r: string)
  {
    var t := if |s| > 0 && s[0] == '-' then s[1..] else s;
    if |t| > 0 && t[|t| - 1] == '-' then t[..|t| - 1] else t
  }

  /** `generateSlug(name)`. */
  function GenerateSlug(name: string): (slug: string)
  {
    TrimDashes(CollapseRuns(ToLower(name)))
  }

  /** No two adjacent dashes. */
  predicate NoDoubleDash(s: string)
  {
    forall i :: 0 <= i < |s| - 1 ==> !(s[i] == '-' && s[i + 1] == '-')
  }

  /** The shape of a slug: only a-z, 0-9 and '-', no "--", no '-' at either end. */
  predicate IsSlug(s: string)
  {
    && (forall i :: 0 <= i < |s| ==> IsSlugChar(s[i]))
    && NoDoubleDash(s)
    && (|s| > 0 ==> s[0] != '-' && s[|s| - 1] != '-')
  }

  /** The collapsed string holds only slug characters, never "--", and starts
      with '-' only when the input does not start with a letter or digit. */
  lemma {:induction false} CollapseRunsShape(s: string)
    ensures var r := CollapseRuns(s);
      && (forall i :: 0 <= i < |r| ==> IsSlugChar(r[i]))
      && NoDoubleDash(r)
      && (|r| > 0 ==> |s| > 0 && (r[0] == '-' <==> !IsSlugAlnum(s[0])))
    decreases |s|
  {
    if s != [] {
      if IsSlugAlnum(s[0]) {
        CollapseRunsShape(s[1..]);
      } else {
        var rest := SkipRun(s[1..]);
        CollapseRunsShape(rest);
        var tail := CollapseRuns(rest);
        assert tail != [] ==> tail[0] != '-';
        assert CollapseRuns(s) == "-" + tail;
      }
    }
  }

  /** Trimming keeps the slug characters and the absence of "--", and leaves no
      '-' at either end once there is no "--". */
  lemma TrimDashesShape(s: string)
    requires forall i :: 0 <= i < |s| ==> IsSlugChar(s[i])
    requires NoDoubleDash(s)
    ensures IsSlug(TrimDashes(s))
  {
    var t := if |s| > 0 && s[0] == '-' then s[1..] else s;
    assert |t| > 0 && s[0] == '-' ==> t[0] == s[1];
  }

  /** The output of `generateSlug` contains only a-z, 0-9 and '-', never two
      adjacent '-', and no '-' at either end. */
  lemma GenerateSlugIsSlug(name: string)
    ensures IsSlug(GenerateSlug(name))
  {
    CollapseRunsShape(ToLower(name));
    TrimDashesShape(CollapseRuns(ToLower(name)));
  }

  /** The letters and digits of `s`, in order. */
  function Alnums(s: string): (a: string)
    ensures forall i :: 0 <= i < |a| ==> IsSlugAlnum(a[i])
  {
    Filter(s, IsSlugAlnum)
  }

  /** Prepending a character adds it to the letters and digits when it is one. */
  lemma AlnumsCons(c: char, s: string)
    ensures Alnums([c] + s) == (if IsSlugAlnum(c) then [c] else []) + Alnums(s)
  {
    FilterAppend([c], s, IsSlugAlnum);
    assert Filter([c], IsSlugAlnum) == Filter([], IsSlugAlnum) + (if IsSlugAlnum(c) then [c] else []);
  }

  /** A run of non-alphanumeric characters carries none of the letters and digits. */
  lemma {:induction false} SkipRunKeepsAlnums(s: string)
    ensures Alnums(SkipRun(s)) == Alnums(s)
    decreases |s|
  {
    if s != [] && !IsSlugAlnum(s[0]) {
      SkipRunKeepsAlnums(s[1..]);
      AlnumsCons(s[0], s[1..]);
      assert s == [s[0]] + s[1..];
    }
  }

  /** Collapsing the runs keeps the letters and digits, in order. */
  lemma {:induction false} CollapseRunsKeepsAlnums(s: string)
    ensures Alnums(CollapseRuns(s)) == Alnums(s)
    decreases |s|
  {
    if s != [] {
      assert s == [s[0]] + s[1..];
      AlnumsCons(s[0], s[1..]);
      if IsSlugAlnum(s[0]) {
        CollapseRunsKeepsAlnums(s[1..]);
        AlnumsCons(s[0], CollapseRuns(s[1..]));
      } else {
        var rest := SkipRun(s[1..]);
        CollapseRunsKeepsAlnums(rest);
        SkipRunKeepsAlnums(s[1..]);
        AlnumsCons('-', CollapseRuns(rest));
      }
    }
  }

  /** Trimming removes dashes only. */
  lemma TrimDashesKeepsAlnums(s: string)
    ensures Alnums(TrimDashes(s)) == Alnums(s)
  {
    var t := if |s| > 0 && s[0] == '-' then s[1..] else s;
    if |s| > 0 && s[0] == '-' {
      assert s == [s[0]] + t;
      AlnumsCons('-', t);
    }
    if |t| > 0 && t[|t| - 1] == '-' {
      var u := t[..|t| - 1];
      assert t == u + [t[|t| - 1]];
      FilterAppend(u, [t[|t| - 1]], IsSlugAlnum);
      assert Filter([t[|t| - 1]], IsSlugAlnum) == Filter([], IsSlugAlnum) + [];
    }
  }

  /** The letters and digits of the slug are exactly those of the lower-cased
      name, in the same order. */
  lemma GenerateSlugKeepsAlnums(name: string)
    ensures Alnums(GenerateSlug(name)) == Alnums(ToLower(name))
  {
    CollapseRunsKeepsAlnums(ToLower(name));
    TrimDashesKeepsAlnums(CollapseRuns(ToLower(name)));
  }

  /** A name without ASCII letters or digits yields the empty slug. */
  lemma GenerateSlugOfNoAlnums(name: string)
    requires forall i :: 0 <= i < |name| ==> !IsSlugAlnum(LowerChar(name[i]))
    ensures GenerateSlug(name) == ""
  {
    var low := ToLower(name);
    GenerateSlugIsSlug(name);
    GenerateSlugKeepsAlnums(name);
    var slug := GenerateSlug(name);
    assert Alnums(low) == [] by {
      forall i | 0 <= i < |low| ensures !IsSlugAlnum(low[i]) { }
      if Alnums(low) != [] {
        FilterMembership(low, IsSlugAlnum, Alnums(low)[0]);
        assert false;
      }
    }
    if slug != [] {
      if IsSlugAlnum(slug[0]) {
        FilterMembership(slug, IsSlugAlnum, slug[0]);
      }
      assert false;
    }
  }

  /** A string of slug shape passes through the collapse unchanged. */
  lemma {:induction false} CollapseRunsOfSlugChars(s: string)
    requires forall i :: 0 <= i < |s| ==> IsSlugChar(s[i])
    requires NoDoubleDash(s)
    ensures CollapseRuns(s) == s
    decreases |s|
  {
    if s != [] {
      CollapseRunsOfSlugChars(s[1..]);
      if !IsSlugAlnum(s[0]) {
        assert SkipRun(s[1..]) == s[1..];
        assert s == "-" + s[1..];
      }
    }
  }

  /** A slug is its own slug. */
  lemma SlugIsFixedPoint(s: string)
    requires IsSlug(s)
    ensures GenerateSlug(s) == s
  {
    LowerOfSlugChars(s);
    CollapseRunsOfSlugChars(s);
    assert TrimDashes(s) == s;
  }

  /** Lower-casing leaves slug characters alone. */
  lemma LowerOfSlugChars(s: string)
    requires forall i :: 0 <= i < |s| ==> IsSlugChar(s[i])
    ensures ToLower(s) == s
  {
    var l := ToLower(s);
    forall i | 0 <= i < |s|
      ensures l[i] == s[i]
    {
      assert !('A' <= s[i] <= 'Z');
    }
  }

  /** `generateSlug` is idempotent, so the slug field re-applying it to a
      generated slug leaves the slug as it is. */
  lemma GenerateSlugIdempotent(name: string)
    ensures GenerateSlug(GenerateSlug(name)) == GenerateSlug(name)
  {
    GenerateSlugIsSlug(name);
    SlugIsFixedPoint(GenerateSlug(name));
  }

  /** For example, "Acme Inc." becomes "acme-inc". */
  lemma AcmeExample()
    ensures GenerateSlug("Acme Inc.") == "acme-inc"
  {
    AcmeLowered();
    AcmeCollapsed();
    assert TrimDashes("acme-inc-") == "acme-inc";
  }

  /** The first step of the example: lower-casing. */
  lemma AcmeLowered()
    ensures ToLower("Acme Inc.") == "acme inc."
  {
    var l := ToLower("Acme Inc.");
    assert l[0] == 'a' && l[4] == ' ' && l[5] == 'i' && l[8] == '.';
  }

  /** The second step of the example: the space and the full stop become dashes. */
  lemma AcmeCollapsed()
    ensures CollapseRuns("acme inc.") == "acme-inc-"
  {
    assert CollapseRuns(".") == "-" by {
      CollapseSeparator('.', "");
      assert [] + "." == ".";
    }
    assert CollapseRuns("inc.") == "inc-" by {
      CollapseWord("inc", ".");
      assert "inc" + "." == "inc.";
    }
    assert CollapseRuns(" inc.") == "-inc-" by {
      CollapseSeparator(' ', "inc.");
    }
    CollapseWord("acme", " inc.");
    assert "acme" + " inc." == "acme inc.";
    assert "acme" + "-inc-" == "acme-inc-";
  }

  /** A run of letters and digits passes through collapsing. */
  lemma {:induction false} CollapseWord(w: string, s: string)
    requires forall i :: 0 <= i < |w| ==> IsSlugAlnum(w[i])
    ensures CollapseRuns(w + s) == w + CollapseRuns(s)
    decreases |w|
  {
    if w != [] {
      assert w + s == [w[0]] + (w[1..] + s);
      CollapseAlnum(w[0], w[1..] + s);
      CollapseWord(w[1..], s);
      assert [w[0]] + (w[1..] + CollapseRuns(s)) == w + CollapseRuns(s);
    } else {
      assert w + s == s && w + CollapseRuns(s) == CollapseRuns(s);
    }
  }

  /** A letter or digit passes through collapsing. */
  lemma CollapseAlnum(c: char, s: string)
    requires IsSlugAlnum(c)
    ensures CollapseRuns([c] + s) == [c] + CollapseRuns(s)
  {
    assert ([c] + s)[1..] == s;
  }

  /** A lone separator before a letter, a digit or the end becomes one '-'. */
  lemma CollapseSeparator(c: char, s: string)
    requires !IsSlugAlnum(c) && (s == [] || IsSlugAlnum(s[0]))
    ensures CollapseRuns([c] + s) == "-" + CollapseRuns(s)
  {
    assert ([c] + s)[1..] == s;
  }
}
