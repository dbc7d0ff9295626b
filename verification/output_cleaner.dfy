/** The day-3 command-line chatbot: `clean_output`, which turns a model reply into plain text,
    and the menu loop that reads a mode, asks the model and shows the cleaned reply. */
module OutputCleaner {
  import opened PyStr
  import opened External

  // ---------------------------------------------------------------------------------------
  // Character-level predicates

  /** The characters of the class `[*_`#>]` that the first substitution deletes. */
  predicate IsMarkdown(c: char) {
    c == '*' || c == '_' || c == '`' || c == '#' || c == '>'
  }

  predicate NoMarkdown(s: string) {
    forall i :: 0 <= i < |s| ==> !IsMarkdown(s[i])
  }

  /** No two adjacent characters of `s` are `a` followed by `b`. */
  predicate NoPair(s: string, a: char, b: char) {
    forall i :: 0 <= i < |s| - 1 ==> !(s[i] == a && s[i + 1] == b)
  }

  /** No three consecutive newlines. */
  predicate NoTripleNewline(s: string) {
    forall i :: 0 <= i < |s| - 2 ==> !(s[i] == '\n' && s[i + 1] == '\n' && s[i + 2] == '\n')
  }

  // ---------------------------------------------------------------------------------------
  // The four steps of clean_output

  /** `re.sub(r'[*_`#>]', '', s)`: every markdown character goes, everything else stays. */
  function DeleteMarkdown(s: string): (r: string)
    ensures |r| <= |s|
    ensures NoMarkdown(r)
    ensures forall c :: c in r ==> c in s
  {
    if s == [] then []
    else (if IsMarkdown(s[0]) then [] else [s[0]]) + DeleteMarkdown(s[1..])
  }

  /** Every non-markdown character that occurs in the input still occurs after the deletion. */
  lemma {:induction false} DeleteMarkdownKeepsOthers(s: string, c: char)
    requires c in s && !IsMarkdown(c)
    ensures c in DeleteMarkdown(s)
  {
    if s[0] != c {
      DeleteMarkdownKeepsOthers(s[1..], c);
    }
  }

  /** `s.replace(a + b, [c])`: scanning left to right, each occurrence of the two-character
      sequence `a b` that does not overlap an earlier replaced one becomes `c`. */
  function ReplacePair(s: string, a: char, b: char, c: char): (r: string)
    ensures |r| <= |s|
    ensures forall x :: x in r ==> x in s || x == c
    ensures s != [] ==> r != [] && r[0] == (if |s| >= 2 && s[0] == a && s[1] == b then c else s[0])
  {
    if |s| >= 2 && s[0] == a && s[1] == b then [c] + ReplacePair(s[2..], a, b, c)
    else if s == [] then []
    else [s[0]] + ReplacePair(s[1..], a, b, c)
  }

  /** The newlines that open `s`, dropped. */
  function DropNewlines(s: string): (r: string)
    ensures |r| <= |s| && r == s[|s| - |r|..]
    ensures r == [] || r[0] != '\n'
    ensures forall i :: 0 <= i < |s| - |r| ==> s[i] == '\n'
  {
    if s != [] && s[0] == '\n' then DropNewlines(s[1..]) else s
  }

  /** `re.sub(r'\n{2,}', '\n\n', s)`: the leftmost, longest run of two or more newlines is
      replaced by exactly two, and the scan resumes after it. */
  function CollapseNewlines(s: string): (r: string)
    ensures |r| <= |s|
    ensures s != [] ==> r != [] && r[0] == s[0]
    ensures forall x :: x in r ==> x in s
    decreases |s|
  {
    if |s| >= 2 && s[0] == '\n' && s[1] == '\n' then
      "\n\n" + CollapseNewlines(DropNewlines(s))
    else if s == [] then []
    else [s[0]] + CollapseNewlines(s[1..])
  }

  /** The three `replace` calls: escaped newlines, then escaped single quotes, then
      escaped double quotes. */
  function Unescape(s: string): (r: string)
    ensures |r| <= |s|
  {
    ReplacePair(ReplacePair(ReplacePair(s, '\\', 'n', '\n'), '\\', '\'', '\''), '\\', '"', '"')
  }

  /** `clean_output(text)`: markdown characters deleted, then escaped newlines and escaped
      quotes unescaped, then newline runs collapsed, then whitespace stripped. */
  function CleanOutput(text: string): (r: string)
    ensures |r| <= |text|
  {
    Strip(CollapseNewlines(Unescape(DeleteMarkdown(text))))
  }

  // ---------------------------------------------------------------------------------------
  // Properties of the steps

  /** After the newline replacement no backslash is directly followed by `n`: replacing with
      a character that is neither `a` nor `b` leaves no occurrence of `a b` behind. */
  lemma {:induction false} ReplaceLeavesNoPair(s: string, a: char, b: char, c: char)
    requires c != a && c != b
    ensures NoPair(ReplacePair(s, a, b, c), a, b)
    decreases |s|
  {
    if |s| >= 2 && s[0] == a && s[1] == b {
      ReplaceLeavesNoPair(s[2..], a, b, c);
    } else if s != [] {
      ReplaceLeavesNoPair(s[1..], a, b, c);
    }
  }

  /** A later replacement whose replacement character is neither `a` nor `b` cannot create
      an `a b` pair that was absent. */
  lemma {:induction false} ReplaceKeepsNoPair(s: string, a': char, b': char, c': char, a: char, b: char)
    requires NoPair(s, a, b)
    requires c' != a && c' != b
    ensures NoPair(ReplacePair(s, a', b', c'), a, b)
    decreases |s|
  {
    if |s| >= 2 && s[0] == a' && s[1] == b' {
      assert NoPair(s[2..], a, b) by {
        forall i | 0 <= i < |s[2..]| - 1 ensures !(s[2..][i] == a && s[2..][i + 1] == b) {
          assert s[2..][i] == s[i + 2] && s[2..][i + 1] == s[i + 3];
        }
      }
      ReplaceKeepsNoPair(s[2..], a', b', c', a, b);
    } else if s != [] {
      assert NoPair(s[1..], a, b) by {
        forall i | 0 <= i < |s[1..]| - 1 ensures !(s[1..][i] == a && s[1..][i + 1] == b) {
          assert s[1..][i] == s[i + 1] && s[1..][i + 1] == s[i + 2];
        }
      }
      ReplaceKeepsNoPair(s[1..], a', b', c', a, b);
    }
  }

  /** Collapsing newline runs cannot put two other characters next to each other. */
  lemma {:induction false} CollapseKeepsNoPair(s: string, a: char, b: char)
    requires NoPair(s, a, b)
    requires a != '\n' && b != '\n'
    ensures NoPair(CollapseNewlines(s), a, b)
    decreases |s|
  {
    if |s| >= 2 && s[0] == '\n' && s[1] == '\n' {
      var rest := DropNewlines(s);
      var k := |s| - |rest|;
      assert NoPair(rest, a, b) by {
        forall i | 0 <= i < |rest| - 1 ensures !(rest[i] == a && rest[i + 1] == b) {
          assert rest[i] == s[k + i] && rest[i + 1] == s[k + i + 1];
        }
      }
      CollapseKeepsNoPair(rest, a, b);
    } else if s != [] {
      assert NoPair(s[1..], a, b) by {
        forall i | 0 <= i < |s[1..]| - 1 ensures !(s[1..][i] == a && s[1..][i + 1] == b) {
          assert s[1..][i] == s[i + 1] && s[1..][i + 1] == s[i + 2];
        }
      }
      CollapseKeepsNoPair(s[1..], a, b);
    }
  }

  /** After collapsing, no three newlines are adjacent. */
  lemma {:induction false} CollapseLeavesNoTriple(s: string)
    ensures NoTripleNewline(CollapseNewlines(s))
    decreases |s|
  {
    if |s| >= 2 && s[0] == '\n' && s[1] == '\n' {
      CollapseLeavesNoTriple(DropNewlines(s));
    } else if s != [] {
      CollapseLeavesNoTriple(s[1..]);
    }
  }

  /** `s` without the characters in `cs`, the others in order. */
  function Skipping(s: string, cs: set<char>): string
  {
    if s == [] then [] else (if s[0] in cs then [] else [s[0]]) + Skipping(s[1..], cs)
  }

  /** Deletion removes the markdown characters and only those: every other character stays,
      each occurrence of it, in order. */
  lemma {:induction false} DeleteMarkdownIsSkipping(s: string)
    ensures DeleteMarkdown(s) == Skipping(s, {'*', '_', '`', '#', '>'})
    decreases |s|
  {
    if s != [] {
      DeleteMarkdownIsSkipping(s[1..]);
    }
  }

  /** Collapsing only shortens newline runs: every other character stays, in order. */
  lemma {:induction false} CollapseKeepsOtherChars(s: string)
    ensures Skipping(CollapseNewlines(s), {'\n'}) == Skipping(s, {'\n'})
    decreases |s|
  {
    if |s| >= 2 && s[0] == '\n' && s[1] == '\n' {
      var rest := DropNewlines(s);
      assert CollapseNewlines(s) == "\n\n" + CollapseNewlines(rest);
      CollapseKeepsOtherChars(rest);
      DropNewlinesKeepsOtherChars(s);
      SkippingTwoNewlines(CollapseNewlines(rest));
    } else if s != [] {
      assert CollapseNewlines(s) == [s[0]] + CollapseNewlines(s[1..]);
      CollapseKeepsOtherChars(s[1..]);
      SkippingStep(s[0], CollapseNewlines(s[1..]), {'\n'});
      SkippingStep(s[0], s[1..], {'\n'});
      assert [s[0]] + s[1..] == s;
    }
  }

  /** Skipping looks at one character at a time. */
  lemma SkippingStep(x: char, y: string, cs: set<char>)
    ensures Skipping([x] + y, cs) == (if x in cs then [] else [x]) + Skipping(y, cs)
  {
    assert ([x] + y)[1..] == y;
  }

  lemma SkippingTwoNewlines(t: string)
    ensures Skipping("\n\n" + t, {'\n'}) == Skipping(t, {'\n'})
  {
    assert "\n\n" + t == ['\n'] + (['\n'] + t);
    SkippingStep('\n', ['\n'] + t, {'\n'});
    SkippingStep('\n', t, {'\n'});
  }

  lemma {:induction false} DropNewlinesKeepsOtherChars(s: string)
    ensures Skipping(DropNewlines(s), {'\n'}) == Skipping(s, {'\n'})
  {
    if s != [] && s[0] == '\n' {
      DropNewlinesKeepsOtherChars(s[1..]);
    }
  }

  /** Collapsing changes nothing exactly when there is no run of three newlines: a run of
      one or two newlines is left as it is. */
  lemma {:induction false} CollapseFixpointIffNoTriple(s: string)
    ensures CollapseNewlines(s) == s <==> NoTripleNewline(s)
    decreases |s|
  {
    CollapseLeavesNoTriple(s);
    if NoTripleNewline(s) {
      CollapseNoTripleUnchanged(s);
    }
  }

  lemma {:induction false} CollapseNoTripleUnchanged(s: string)
    requires NoTripleNewline(s)
    ensures CollapseNewlines(s) == s
    decreases |s|
  {
    if |s| >= 2 && s[0] == '\n' && s[1] == '\n' {
      var rest := DropNewlines(s);
      assert |s| == 2 || s[2] != '\n';
      assert rest == s[2..];
      assert NoTripleNewline(rest) by {
        forall i | 0 <= i < |rest| - 2
          ensures !(rest[i] == '\n' && rest[i + 1] == '\n' && rest[i + 2] == '\n')
        {
          assert rest[i] == s[i + 2] && rest[i + 1] == s[i + 3] && rest[i + 2] == s[i + 4];
        }
      }
      CollapseNoTripleUnchanged(rest);
      assert s == "\n\n" + s[2..];
    } else if s != [] {
      assert NoTripleNewline(s[1..]) by {
        forall i | 0 <= i < |s[1..]| - 2
          ensures !(s[1..][i] == '\n' && s[1..][i + 1] == '\n' && s[1..][i + 2] == '\n')
        {
          assert s[1..][i] == s[i + 1] && s[1..][i + 1] == s[i + 2] && s[1..][i + 2] == s[i + 3];
        }
      }
      CollapseNoTripleUnchanged(s[1..]);
      assert s == [s[0]] + s[1..];
    }
  }

  /** Collapsing is idempotent. */
  lemma CollapseIdempotent(s: string)
    ensures CollapseNewlines(CollapseNewlines(s)) == CollapseNewlines(s)
  {
    CollapseLeavesNoTriple(s);
    CollapseNoTripleUnchanged(CollapseNewlines(s));
  }

  /** An infix of `s` keeps the absences `s` has. */
  lemma InfixKeepsAbsences(s: string, i: nat, j: nat)
    requires i <= j <= |s|
    ensures NoMarkdown(s) ==> NoMarkdown(s[i..j])
    ensures NoTripleNewline(s) ==> NoTripleNewline(s[i..j])
    ensures NoPair(s, '\\', 'n') ==> NoPair(s[i..j], '\\', 'n')
  {
    var t := s[i..j];
    forall k | 0 <= k < |t| ensures t[k] == s[i + k] { }
  }

  /** `replace` changes only the pairs it replaces: the characters other than `a`, `b` and
      `c` all stay, in order. */
  lemma {:induction false} ReplaceKeepsOtherChars(s: string, a: char, b: char, c: char)
    ensures Skipping(ReplacePair(s, a, b, c), {a, b, c}) == Skipping(s, {a, b, c})
    decreases |s|
  {
    if |s| >= 2 && s[0] == a && s[1] == b {
      var rest := ReplacePair(s[2..], a, b, c);
      ReplaceKeepsOtherChars(s[2..], a, b, c);
      assert ([c] + rest)[1..] == rest;
      assert s[1..][1..] == s[2..];
    } else if s != [] {
      ReplaceKeepsOtherChars(s[1..], a, b, c);
      assert ([s[0]] + ReplacePair(s[1..], a, b, c))[1..] == ReplacePair(s[1..], a, b, c);
    }
  }

  /** A text in which `a` does not occur has no pair to replace and comes back unchanged. */
  lemma {:induction false} ReplaceWithoutPairUnchanged(s: string, a: char, b: char, c: char)
    requires a !in s
    ensures ReplacePair(s, a, b, c) == s
    decreases |s|
  {
    if s != [] {
      assert s[0] != a;
      ReplaceWithoutPairUnchanged(s[1..], a, b, c);
      assert s == [s[0]] + s[1..];
    }
  }

  /** A run of `k` newlines. */
  function Newlines(k: nat): string
  {
    seq(k, _ => '\n')
  }

  lemma {:induction false} DropNewlinesRun(k: nat, y: string)
    requires y == [] || y[0] != '\n'
    ensures DropNewlines(Newlines(k) + y) == y
  {
    if k == 0 {
      assert Newlines(k) + y == y;
    } else {
      assert (Newlines(k) + y)[1..] == Newlines(k - 1) + y;
      DropNewlinesRun(k - 1, y);
    }
  }

  /** A whole run of newlines, up to the next other character: a single newline stays, and
      a run of two or more becomes exactly two; the rest of the text is collapsed in turn. */
  lemma CollapseRun(k: nat, y: string)
    requires k >= 1 && (y == [] || y[0] != '\n')
    ensures CollapseNewlines(Newlines(k) + y) == Newlines(if k == 1 then 1 else 2) + CollapseNewlines(y)
  {
    var s := Newlines(k) + y;
    if k == 1 {
      assert s[1..] == y;
      assert Newlines(1) == "\n";
    } else {
      assert s[0] == '\n' && s[1] == '\n';
      DropNewlinesRun(k, y);
      assert Newlines(2) == "\n\n";
    }
  }

  /** Any other character is copied, and the collapse goes on after it. */
  lemma CollapseOther(x: char, y: string)
    requires x != '\n'
    ensures CollapseNewlines([x] + y) == [x] + CollapseNewlines(y)
  {
    assert ([x] + y)[1..] == y;
  }

  lemma {:induction false} DeleteMarkdownUnchanged(s: string)
    requires NoMarkdown(s)
    ensures DeleteMarkdown(s) == s
  {
    if s != [] {
      assert NoMarkdown(s[1..]) by {
        forall i | 0 <= i < |s[1..]| ensures !IsMarkdown(s[1..][i]) {
          assert s[1..][i] == s[i + 1];
        }
      }
      DeleteMarkdownUnchanged(s[1..]);
      assert s == [s[0]] + s[1..];
    }
  }

  // ---------------------------------------------------------------------------------------
  // Properties of clean_output as a whole

  /** What `clean_output` guarantees about the text it returns: none of `*`, `_`, `` ` ``,
      `#`, `>`; no escaped newline left; no three newlines in a row; no whitespace at either
      end; never longer than its input. */
  lemma CleanOutputGuarantees(text: string)
    ensures NoMarkdown(CleanOutput(text))
    ensures NoPair(CleanOutput(text), '\\', 'n')
    ensures NoTripleNewline(CleanOutput(text))
    ensures var r := CleanOutput(text); r == [] || (!IsSpace(r[0]) && !IsSpace(r[|r| - 1]))
  {
    var t4 := CollapseNewlines(Unescape(DeleteMarkdown(text)));
    CollapsedGuarantees(text);
    StripIsTrimmedInfix(t4);
    InfixKeepsAbsences(t4, LeadingSpace(t4), LeadingSpace(t4) + |Strip(t4)|);
  }

  /** The text before the final strip: no markdown, no escaped newline, no newline triple. */
  lemma CollapsedGuarantees(text: string)
    ensures var t4 := CollapseNewlines(Unescape(DeleteMarkdown(text)));
      NoMarkdown(t4) && NoPair(t4, '\\', 'n') && NoTripleNewline(t4) && |t4| <= |text|
  {
    var t3 := Unescape(DeleteMarkdown(text));
    UnescapeGuarantees(DeleteMarkdown(text));
    var t4 := CollapseNewlines(t3);
    assert NoMarkdown(t4) by {
      forall k | 0 <= k < |t4| ensures !IsMarkdown(t4[k]) {
        assert t4[k] in t4;
      }
    }
    CollapseKeepsNoPair(t3, '\\', 'n');
    CollapseLeavesNoTriple(t3);
  }

  /** Unescaping brings back no markdown character, leaves no escaped newline, and never
      lengthens the text. */
  lemma UnescapeGuarantees(t1: string)
    requires NoMarkdown(t1)
    ensures var t3 := Unescape(t1); NoMarkdown(t3) && NoPair(t3, '\\', 'n') && |t3| <= |t1|
  {
    var t2 := ReplacePair(t1, '\\', 'n', '\n');
    var t3a := ReplacePair(t2, '\\', '\'', '\'');
    var t3 := ReplacePair(t3a, '\\', '"', '"');
    assert NoMarkdown(t3) by {
      forall k | 0 <= k < |t3| ensures !IsMarkdown(t3[k]) {
        assert t3[k] in t3;
      }
    }
    ReplaceLeavesNoPair(t1, '\\', 'n', '\n');
    ReplaceKeepsNoPair(t2, '\\', '\'', '\'', '\\', 'n');
    ReplaceKeepsNoPair(t3a, '\\', '"', '"', '\\', 'n');
  }

  /** Text that is already clean comes back unchanged: no markdown characters, no
      backslash, no three newlines in a row and no whitespace at either end. */
  lemma CleanTextUnchanged(t: string)
    requires NoMarkdown(t) && '\\' !in t && NoTripleNewline(t)
    requires t == [] || (!IsSpace(t[0]) && !IsSpace(t[|t| - 1]))
    ensures CleanOutput(t) == t
  {
    DeleteMarkdownUnchanged(t);
    ReplaceWithoutPairUnchanged(t, '\\', 'n', '\n');
    ReplaceWithoutPairUnchanged(t, '\\', '\'', '\'');
    ReplaceWithoutPairUnchanged(t, '\\', '"', '"');
    CollapseNoTripleUnchanged(t);
    StripUnchanged(t);
  }

  /** Cleaning a cleaned text again changes nothing, unless a backslash is left in it (an
      escaped quote that only the second pass unescapes, as in the example below). */
  lemma CleanOutputStableWithoutBackslash(text: string)
    requires '\\' !in CleanOutput(text)
    ensures CleanOutput(CleanOutput(text)) == CleanOutput(text)
  {
    CleanOutputGuarantees(text);
    CleanTextUnchanged(CleanOutput(text));
  }

  /** Deletion runs before unescaping: a backslash, a star and an `n` become a real newline. */
  lemma DeletionBeforeUnescaping()
    ensures CleanOutput("a\\*nb") == "a\nb"
  {
    DeletionExampleDelete();
    DeletionExampleUnescape();
    DeletionExampleFinish();
  }

  lemma DeletionExampleDelete()
    ensures DeleteMarkdown("a\\*nb") == "a\\nb"
  {
    DeleteStep('b', "");
    DeleteStep('n', "b");
    DeleteStep('*', "nb");
    DeleteStep('\\', "*nb");
    DeleteStep('a', "\\*nb");
    assert "a\\*nb" == ['a'] + "\\*nb";
  }

  /** Deletion looks at one character at a time. */
  lemma DeleteStep(x: char, y: string)
    ensures DeleteMarkdown([x] + y) == (if IsMarkdown(x) then [] else [x]) + DeleteMarkdown(y)
  {
    assert ([x] + y)[1..] == y;
  }

  lemma DeletionExampleUnescape()
    ensures Unescape("a\\nb") == "a\nb"
  {
    assert "a\\nb"[1..] == "\\nb" && "\\nb"[2..] == "b";
    assert ReplacePair("b", '\\', 'n', '\n') == "b";
    assert ReplacePair("\\nb", '\\', 'n', '\n') == "\nb";
    assert ReplacePair("a\\nb", '\\', 'n', '\n') == "a\nb";
    assert "a\nb"[1..] == "\nb" && "\nb"[1..] == "b";
    assert ReplacePair("a\nb", '\\', '\'', '\'') == "a\nb";
    assert ReplacePair("a\nb", '\\', '"', '"') == "a\nb";
  }

  lemma DeletionExampleFinish()
    ensures Strip(CollapseNewlines("a\nb")) == "a\nb"
  {
    assert "a\nb"[1..] == "\nb" && "\nb"[1..] == "b" && "b"[1..] == [];
    assert CollapseNewlines("a\nb") == "a\nb";
    assert "a\nb"[0] == 'a' && "a\nb"[2] == 'b';
    NotSpace('a');
    NotSpace('b');
    StripUnchanged("a\nb");
  }

  /** Quote unescaping runs after newline unescaping and scans left to right, so of two
      backslashes before a quote only the second one goes. */
  lemma QuoteUnescapingAfterNewlines()
    ensures CleanOutput("x\\\\'") == "x\\'"
    ensures CleanOutput(CleanOutput("x\\\\'")) == "x'"
  {
    QuoteExampleSteps();
    QuoteExampleFinish();
    QuoteExampleSecondPass();
  }

  /** The second cleaning of the example: the backslash left by the first one now escapes
      the quote, and goes. */
  lemma QuoteExampleSecondPass()
    ensures CleanOutput("x\\'") == "x'"
  {
    var t := "x\\'";
    assert NoMarkdown(t) by {
      forall i | 0 <= i < |t| ensures !IsMarkdown(t[i]) {
        assert t[i] == 'x' || t[i] == '\\' || t[i] == '\'';
      }
    }
    DeleteMarkdownUnchanged(t);
    assert t[1..] == "\\'" && "\\'"[1..] == "'" && "'"[1..] == [];
    assert ReplacePair("'", '\\', 'n', '\n') == "'";
    assert ReplacePair("\\'", '\\', 'n', '\n') == "\\'";
    assert ReplacePair(t, '\\', 'n', '\n') == t;
    assert "\\'"[2..] == [];
    assert ReplacePair("'", '\\', '\'', '\'') == "'";
    assert ReplacePair("\\'", '\\', '\'', '\'') == "'";
    assert ReplacePair(t, '\\', '\'', '\'') == "x'";
    ReplaceWithoutPairUnchanged("x'", '\\', '"', '"');
    assert "x'" == ['x'] + "'" && "'" == ['\''] + [];
    CollapseOther('\'', []);
    CollapseOther('x', "'");
    NotSpace('x');
    NotSpace('\'');
    StripUnchanged("x'");
  }

  lemma QuoteExampleFinish()
    ensures Strip(CollapseNewlines("x\\'")) == "x\\'"
  {
    assert "x\\'"[1..] == "\\'" && "\\'"[1..] == "'" && "'"[1..] == [];
    assert CollapseNewlines("'") == "'";
    assert CollapseNewlines("\\'") == "\\'";
    assert CollapseNewlines("x\\'") == "x\\'";
    assert "x\\'"[0] == 'x' && "x\\'"[2] == '\'';
    NotSpace('x');
    NotSpace('\'');
    StripUnchanged("x\\'");
  }

  lemma QuoteExampleSteps()
    ensures Unescape(DeleteMarkdown("x\\\\'")) == "x\\'"
  {
    QuoteExampleFirstSteps();
    assert "x\\\\'"[1..] == "\\\\'" && "\\\\'"[1..] == "\\'" && "\\'"[1..] == "'";
    assert "'"[1..] == [] && "\\'"[2..] == [];
    assert ReplacePair("\\'", '\\', '\'', '\'') == "'";
    assert ReplacePair("\\\\'", '\\', '\'', '\'') == "\\'";
    assert ReplacePair("x\\\\'", '\\', '\'', '\'') == "x\\'";
    assert "x\\'"[1..] == "\\'";
    assert ReplacePair("'", '\\', '"', '"') == "'";
    assert ReplacePair("\\'", '\\', '"', '"') == "\\'";
    assert ReplacePair("x\\'", '\\', '"', '"') == "x\\'";
  }

  lemma QuoteExampleFirstSteps()
    ensures ReplacePair(DeleteMarkdown("x\\\\'"), '\\', 'n', '\n') == "x\\\\'"
  {
    assert "x\\\\'"[1..] == "\\\\'" && "\\\\'"[1..] == "\\'" && "\\'"[1..] == "'";
    assert "'"[1..] == [];
    assert DeleteMarkdown("'") == "'";
    assert DeleteMarkdown("\\'") == "\\'";
    assert DeleteMarkdown("\\\\'") == "\\\\'";
    assert DeleteMarkdown("x\\\\'") == "x\\\\'";
    assert ReplacePair("'", '\\', 'n', '\n') == "'";
    assert ReplacePair("\\'", '\\', 'n', '\n') == "\\'";
    assert ReplacePair("\\\\'", '\\', 'n', '\n') == "\\\\'";
  }

  // ---------------------------------------------------------------------------------------
  // The menu loop of run_day3

  /** The two prompt templates, up to the place where the user's text is inserted. */
  const QnaPrompt := "You are a helpful AI assistant. Answer the following question:\n\nQuestion: "
  const SummaryPrompt := "Summarize the following text in 3-4 sentences:\n\n"

  /** What a stripped choice selects: "1", "2", "3" or anything else. */
  datatype Mode = Qna | Summarize | Exit | Unknown

  function ModeOf(line: string): Mode
  {
    var choice := Strip(line);
    if choice == "1" then Qna
    else if choice == "2" then Summarize
    else if choice == "3" then Exit
    else Unknown
  }

  /** One pass of the loop: the text the user gave and the model's reply, or an invalid choice. */
  datatype Event =
    | Answered(question: string, reply: string)
    | Summarized(text: string, reply: string)
    | InvalidChoice
  {
    /** What the pass prints after "Answer:": the reply through `clean_output`. */
    function Shown(): string
      requires !InvalidChoice?
    {
      CleanOutput(reply)
    }
  }

  /** Why the loop stopped: the user chose "3", `input()` found no more lines (EOFError), or
      the model raised (the exception leaves the loop). */
  datatype MenuEnd = ChoseExit | InputExhausted | ModelRaised(error: string)

  /** The prompt a mode sends: the template with the user's text filled in. */
  function Prompt(mode: Mode, text: string): string
  {
    (if mode == Qna then QnaPrompt else SummaryPrompt) + text
  }

  /** The event a mode records for the text the user gave and the model's reply. */
  function EventOf(mode: Mode, text: string, reply: string): Event
  {
    if mode == Qna then Answered(text, reply) else Summarized(text, reply)
  }

  /** The run of the menu over the lines the user types, as a specification: each choice is
      stripped; "1" and "2" read one more line, prompt the model with it and show the cleaned
      reply; "3" stops; anything else is an invalid choice and the menu comes back. */
  function Menu(lines: seq<string>, llm: string -> Reply): (run: (seq<Event>, MenuEnd))
    ensures |run.0| <= |lines|
    decreases |lines|
  {
    if lines == [] then ([], InputExhausted)
    else
      var mode := ModeOf(lines[0]);
      if mode == Qna || mode == Summarize then
        if |lines| == 1 then ([], InputExhausted)
        else
          match llm(Prompt(mode, lines[1]))
          case Raised(e) => ([], ModelRaised(e))
          case Answer(t) =>
            var rest := Menu(lines[2..], llm);
            ([EventOf(mode, lines[1], t)] + rest.0, rest.1)
      else if mode == Exit then ([], ChoseExit)
      else
        var rest := Menu(lines[1..], llm);
        ([InvalidChoice] + rest.0, rest.1)
  }

  /** One pass of the menu, from the line at `i`. */
  lemma MenuStep(lines: seq<string>, i: nat, llm: string -> Reply)
    requires i < |lines|
    ensures var mode := ModeOf(lines[i]);
      var here := Menu(lines[i..], llm);
      && (mode == Exit ==> here == ([], ChoseExit))
      && (mode == Unknown ==>
            here == ([InvalidChoice] + Menu(lines[i + 1..], llm).0, Menu(lines[i + 1..], llm).1))
      && ((mode == Qna || mode == Summarize) && i + 1 == |lines| ==> here == ([], InputExhausted))
      && ((mode == Qna || mode == Summarize) && i + 1 < |lines| ==>
            match llm(Prompt(mode, lines[i + 1]))
            case Raised(e) => here == ([], ModelRaised(e))
            case Answer(t) =>
              here == ([EventOf(mode, lines[i + 1], t)] + Menu(lines[i + 2..], llm).0, Menu(lines[i + 2..], llm).1))
  {
    var rest := lines[i..];
    assert rest[0] == lines[i];
    assert rest[1..] == lines[i + 1..];
    if i + 1 < |lines| {
      assert rest[1] == lines[i + 1];
      assert rest[2..] == lines[i + 2..];
    }
  }

  /** `run_day3`: the `while True` loop, reading the lines in order. */
  method RunMenu(lines: seq<string>, llm: string -> Reply) returns (events: seq<Event>, end: MenuEnd)
    ensures (events, end) == Menu(lines, llm)
  {
    events := [];
    var i := 0;
    ghost var run := Menu(lines, llm);
    assert lines[i..] == lines;
    assert events + run.0 == run.0;
    while true
      invariant 0 <= i <= |lines|
      invariant run == (events + Menu(lines[i..], llm).0, Menu(lines[i..], llm).1)
      decreases |lines| - i
    {
      if i == |lines| {
        assert lines[i..] == [];
        assert events + [] == events;
        end := InputExhausted;
        return;
      }
      var mode := ModeOf(lines[i]);
      MenuStep(lines, i, llm);
      if mode == Qna || mode == Summarize {
        if i + 1 == |lines| {
          assert events + [] == events;
          end := InputExhausted;
          return;
        }
        var text := lines[i + 1];
        var reply := llm(Prompt(mode, text));
        if reply.Raised? {
          assert events + [] == events;
          end := ModelRaised(reply.error);
          return;
        }
        var event := EventOf(mode, text, reply.text);
        ghost var rest := Menu(lines[i + 2..], llm);
        assert (events + [event]) + rest.0 == events + ([event] + rest.0);
        events := events + [event];
        i := i + 2;
      } else if mode == Exit {
        assert events + [] == events;
        end := ChoseExit;
        return;
      } else {
        ghost var rest := Menu(lines[i + 1..], llm);
        assert (events + [InvalidChoice]) + rest.0 == events + ([InvalidChoice] + rest.0);
        events := events + [InvalidChoice];
        i := i + 1;
      }
    }
  }

  /** Every reply the menu shows has been through `clean_output`, so it carries its
      guarantees. */
  lemma {:induction false} MenuShowsCleanText(lines: seq<string>, llm: string -> Reply)
    ensures forall e :: e in Menu(lines, llm).0 && !e.InvalidChoice? ==>
      NoMarkdown(e.Shown()) && NoTripleNewline(e.Shown()) && NoPair(e.Shown(), '\\', 'n')
    decreases |lines|
  {
    if lines != [] {
      var mode := ModeOf(lines[0]);
      if (mode == Qna || mode == Summarize) && |lines| > 1 {
        var prompt := Prompt(mode, lines[1]);
        if llm(prompt).Answer? {
          CleanOutputGuarantees(llm(prompt).text);
          MenuShowsCleanText(lines[2..], llm);
        }
      } else if mode == Unknown {
        MenuShowsCleanText(lines[1..], llm);
      }
    }
  }

  /** Once the loop has stopped, by "3" or by the model raising, it reads nothing more:
      whatever the user would type afterwards changes nothing. */
  lemma {:induction false} MenuReadsNothingAfterStop(lines: seq<string>, more: seq<string>, llm: string -> Reply)
    requires !Menu(lines, llm).1.InputExhausted?
    ensures Menu(lines + more, llm) == Menu(lines, llm)
    decreases |lines|
  {
    var all := lines + more;
    var mode := ModeOf(lines[0]);
    assert all[0] == lines[0];
    if mode == Qna || mode == Summarize {
      assert |lines| > 1;
      assert all[1] == lines[1];
      if llm(Prompt(mode, lines[1])).Answer? {
        assert all[2..] == lines[2..] + more;
        MenuReadsNothingAfterStop(lines[2..], more, llm);
      }
    } else if mode == Unknown {
      assert all[1..] == lines[1..] + more;
      MenuReadsNothingAfterStop(lines[1..], more, llm);
    }
  }

  /** Whether the menu reads the line at `k` as a choice: the first line is, and after a
      choice the next one is read as a choice once a mode has been answered (two lines on) or
      an invalid choice shown (one line on); after "3", an unanswered mode or a model error
      nothing more is read. */
  predicate ChoiceAt(lines: seq<string>, llm: string -> Reply, k: nat)
    decreases |lines|
  {
    if lines == [] then false
    else if k == 0 then true
    else
      var mode := ModeOf(lines[0]);
      if mode == Unknown then ChoiceAt(lines[1..], llm, k - 1)
      else if mode == Exit then false
      else |lines| > 1 && k >= 2 && llm(Prompt(mode, lines[1])).Answer? && ChoiceAt(lines[2..], llm, k - 2)
  }

  lemma {:induction false} ChoiceAtInRange(lines: seq<string>, llm: string -> Reply, k: nat)
    requires ChoiceAt(lines, llm, k)
    ensures k < |lines|
    decreases |lines|
  {
    if k > 0 {
      if ModeOf(lines[0]) == Unknown {
        ChoiceAtInRange(lines[1..], llm, k - 1);
      } else {
        ChoiceAtInRange(lines[2..], llm, k - 2);
      }
    }
  }

  /** The loop stops by the user's choice exactly when some line it reads as a choice strips
      to "3". */
  lemma MenuExitsOnlyOnThree(lines: seq<string>, llm: string -> Reply)
    ensures Menu(lines, llm).1 == ChoseExit <==>
      exists k: nat :: ChoiceAt(lines, llm, k) && k < |lines| && ModeOf(lines[k]) == Exit
  {
    if Menu(lines, llm).1 == ChoseExit {
      MenuExitHasChoice(lines, llm);
    }
    if exists k: nat :: ChoiceAt(lines, llm, k) && k < |lines| && ModeOf(lines[k]) == Exit {
      var k: nat :| ChoiceAt(lines, llm, k) && k < |lines| && ModeOf(lines[k]) == Exit;
      ExitChoiceStopsMenu(lines, llm, k);
    }
  }

  lemma {:induction false} MenuExitHasChoice(lines: seq<string>, llm: string -> Reply)
    requires Menu(lines, llm).1 == ChoseExit
    ensures exists k: nat :: ChoiceAt(lines, llm, k) && k < |lines| && ModeOf(lines[k]) == Exit
    decreases |lines|
  {
    var mode := ModeOf(lines[0]);
    if mode == Exit {
      assert ChoiceAt(lines, llm, 0);
    } else if mode == Unknown {
      MenuExitHasChoice(lines[1..], llm);
      var k: nat :| ChoiceAt(lines[1..], llm, k) && k < |lines[1..]| && ModeOf(lines[1..][k]) == Exit;
      assert ChoiceAt(lines, llm, k + 1) && ModeOf(lines[k + 1]) == Exit;
    } else {
      MenuExitHasChoice(lines[2..], llm);
      var k: nat :| ChoiceAt(lines[2..], llm, k) && k < |lines[2..]| && ModeOf(lines[2..][k]) == Exit;
      assert ChoiceAt(lines, llm, k + 2) && ModeOf(lines[k + 2]) == Exit;
    }
  }

  lemma {:induction false} ExitChoiceStopsMenu(lines: seq<string>, llm: string -> Reply, k: nat)
    requires ChoiceAt(lines, llm, k) && k < |lines| && ModeOf(lines[k]) == Exit
    ensures Menu(lines, llm).1 == ChoseExit
    decreases |lines|
  {
    if k > 0 {
      if ModeOf(lines[0]) == Unknown {
        assert lines[1..][k - 1] == lines[k];
        ExitChoiceStopsMenu(lines[1..], llm, k - 1);
      } else {
        assert lines[2..][k - 2] == lines[k];
        ExitChoiceStopsMenu(lines[2..], llm, k - 2);
      }
    }
  }

  /** Every choice read before a later one was answered or invalid: it was not "3". */
  lemma {:induction false} EarlierChoicesAreNotExit(lines: seq<string>, llm: string -> Reply, j: nat, k: nat)
    requires j < k && ChoiceAt(lines, llm, j) && ChoiceAt(lines, llm, k)
    ensures j < |lines| && ModeOf(lines[j]) != Exit
    decreases |lines|
  {
    ChoiceAtInRange(lines, llm, k);
    if j > 0 {
      if ModeOf(lines[0]) == Unknown {
        EarlierChoicesAreNotExit(lines[1..], llm, j - 1, k - 1);
        assert lines[1..][j - 1] == lines[j];
      } else {
        EarlierChoicesAreNotExit(lines[2..], llm, j - 2, k - 2);
        assert lines[2..][j - 2] == lines[j];
      }
    }
  }
}
