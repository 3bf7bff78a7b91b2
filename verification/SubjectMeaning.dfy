/** What becomes of the words of a subject: which subjects are kept, what replaces the others, and what is left
    of a subject with reply and forward marks. */
module SubjectMeaning {
  import opened Common
  import opened Subjects
  import Text

  // ---- Words ---------------------------------------------------------------------------------------

  /** A text of one word. */
  /** The code points that separate words: the controls from tab to carriage return and from the file separator on, the
      blank, and the other Unicode spaces and separators. */
  lemma SpaceMeans(c: char)
    ensures Subjects.IsSpace(c)
            <==> c as int in {0x09, 0x0a, 0x0b, 0x0c, 0x0d, 0x1c, 0x1d, 0x1e, 0x1f, 0x20, 0x85, 0xa0, 0x1680, 0x2000, 0x2001, 0x2002,
                              0x2003, 0x2004, 0x2005, 0x2006, 0x2007, 0x2008, 0x2009, 0x200a, 0x2028, 0x2029, 0x202f, 0x205f, 0x3000}
  {
  }

  predicate IsWord(w: string) { w != "" && forall i :: 0 <= i < |w| ==> !IsSpace(w[i]) }

  lemma {:induction false} WordEnds(w: string, rest: string)
    requires forall i :: 0 <= i < |w| ==> !IsSpace(w[i])
    requires rest == "" || IsSpace(rest[0])
    ensures WordLength(w + rest) == |w|
  {
    if w == "" {
      assert w + rest == rest;
    } else {
      assert (w + rest)[1..] == w[1..] + rest;
      WordEnds(w[1..], rest);
    }
  }

  /** A word, a blank, and more. */
  lemma FirstWord(w: string, rest: string)
    requires IsWord(w) && (rest == "" || IsSpace(rest[0]))
    ensures Words(w + rest) == [w] + Words(rest)
  {
    WordEnds(w, rest);
    var s := w + rest;
    assert s[0] == w[0] && s[..|w|] == w && s[|w|..] == rest;
  }

  lemma BlankThen(w: string, more: string)
    requires IsWord(w)
    ensures Words(w + " " + more) == [w] + Words(more)
  {
    var rest := " " + more;
    FirstWord(w, rest);
    assert w + " " + more == w + rest && rest[1..] == more;
  }

  /** Splitting what was joined gives the words back. */
  lemma {:induction false} WordsOfJoin(words: seq<string>)
    requires forall i :: 0 <= i < |words| ==> IsWord(words[i])
    ensures Words(Join(words)) == words
  {
    if |words| == 1 {
      FirstWord(words[0], "");
      assert words[0] + "" == words[0] && Words("") == [];
      assert [words[0]] + [] == words;
    } else if |words| >= 2 {
      BlankThen(words[0], Join(words[1..]));
      WordsOfJoin(words[1..]);
    }
  }

  lemma {:induction false} LeadingSpace(s: string, i: nat)
    requires i <= |s|
    ensures Words(s[i..]) == Words(s[SkipSpace(s, i)..])
    decreases |s| - i
  {
    if i < |s| && IsSpace(s[i]) {
      assert s[i..][1..] == s[i + 1..];
      LeadingSpace(s, i + 1);
    }
  }

  /** White space at the end adds no word. */
  lemma {:induction false} OneTrailingSpace(s: string)
    requires s != "" && IsSpace(s[|s| - 1])
    ensures Words(s) == Words(s[..|s| - 1])
    decreases |s|
  {
    var t := s[..|s| - 1];
    if IsSpace(s[0]) {
      if |s| > 1 {
        assert s[1..][..|s| - 2] == t[1..];
        OneTrailingSpace(s[1..]);
      }
    } else {
      var n := WordLength(s);
      assert n < |s|;
      var w, rest := s[..n], s[n..];
      assert s == w + rest && t == w + rest[..|rest| - 1];
      OneTrailingSpace(rest);
      FirstWord(w, rest);
      FirstWord(w, rest[..|rest| - 1]);
    }
  }

  lemma {:induction false} TrailingSpace(s: string, j: nat)
    requires j <= |s|
    ensures Words(s[..j]) == Words(s[..TrimEnd(s, j)])
    decreases j
  {
    if j > 0 && IsSpace(s[j - 1]) {
      OneTrailingSpace(s[..j]);
      assert s[..j][..j - 1] == s[..j - 1];
      TrailingSpace(s, j - 1);
    }
  }

  /** A text without words is nothing but white space. */
  lemma {:induction false} NoWords(s: string)
    ensures Words(s) == [] <==> forall i :: 0 <= i < |s| ==> IsSpace(s[i])
    decreases |s|
  {
    if s != "" {
      if IsSpace(s[0]) {
        NoWords(s[1..]);
        assert forall i :: 0 < i < |s| ==> s[i] == s[1..][i - 1];
      }
    }
  }

  /** Stripping keeps the words. */
  lemma StripKeepsWords(s: string)
    ensures Words(Strip(s)) == Words(s)
  {
    var end, start := TrimEnd(s, |s|), SkipSpace(s, 0);
    TrailingSpace(s, |s|);
    assert s[..|s|] == s;
    var t := s[..end];
    if start <= end {
      LeadingSpace(t, 0);
      SameSkip(s, end, 0);
      assert t[0..] == t && t[start..] == s[start..end];
    } else {
      AllSpaceBefore(s, 0);
      NoWords(t);
    }
  }

  lemma {:induction false} AllSpaceBefore(s: string, i: nat)
    requires i <= |s|
    ensures forall k :: i <= k < SkipSpace(s, i) ==> IsSpace(s[k])
    decreases |s| - i
  {
    if i < |s| && IsSpace(s[i]) {
      AllSpaceBefore(s, i + 1);
    }
  }

  lemma {:induction false} SameSkip(s: string, end: nat, i: nat)
    requires i <= end <= |s| && SkipSpace(s, i) <= end
    ensures SkipSpace(s[..end], i) == SkipSpace(s, i)
    decreases |s| - i
  {
    if i < |s| && IsSpace(s[i]) {
      SameSkip(s, end, i + 1);
    }
  }

  /** A collapsed text is the words of the text with single blanks between them. */
  lemma CollapseIsItsWords(s: string)
    ensures Collapse(s) == Join(Words(s)) && Words(Collapse(s)) == Words(s)
    ensures Collapse(s) == "" <==> Words(s) == []
  {
    StripKeepsWords(s);
    WordsAreWords(s);
    WordsOfJoin(Words(s));
    if Words(s) != [] {
      JoinIsTidy(Words(s));
    }
  }

  // ---- Folding and phrases ----------------------------------------------------------------------------

  /** Folding works character by character. */
  lemma {:induction false} LowerIsByCharacter(locale: Locale, a: string, c: char, b: string)
    ensures Lower(locale, a + [c] + b) == Lower(locale, a) + locale.lower(c) + Lower(locale, b)
  {
    if a == "" {
      assert (a + [c] + b)[1..] == b;
    } else {
      assert (a + [c] + b)[1..] == a[1..] + [c] + b;
      LowerIsByCharacter(locale, a[1..], c, b);
    }
  }

  /** The phrases a subject must not contain. */
  const PHRASES: seq<string> := [
    "fresh thought", "quick question", "follow up", "following up", "outreach", "partnership",
    "partnership opportunities", "partnership opportunity"
  ]

  ghost predicate Within(part: string, text: string) { exists before, after :: text == before + part + after }

  /** Some phrase is part of the folded words. */
  ghost predicate HasPhrase(locale: Locale, s: string) {
    exists i :: 0 <= i < 8 && Within(PHRASES[i], Lower(locale, Join(Words(s))))
  }

  lemma ContainsIsWithin(text: string, part: string)
    ensures Text.Contains(text, part) <==> Within(part, text)
  {
    if Text.Contains(text, part) {
      var i :| 0 <= i <= |text| && Text.OccursAt(text, part, i);
      assert text == text[..i] + part + text[i + |part|..];
    }
    if before, after :| text == before + part + after {
      assert Text.OccursAt(text, part, |before|);
    }
  }

  lemma SpammyIsHasPhrase(locale: Locale, s: string)
    ensures Spammy(locale, Collapse(s)) <==> HasPhrase(locale, s)
  {
    CollapseIsItsWords(s);
    var low := Lower(locale, Collapse(s));
    forall part: string
      ensures Text.Contains(low, part) <==> Within(part, low)
    {
      ContainsIsWithin(low, part);
    }
    forall i | 0 <= i < 8
      ensures SPAMMY[7 - i] == PHRASES[i]
    {
    }
    if Spammy(locale, Collapse(s)) {
      var i :| 0 <= i < |SPAMMY| && Text.Contains(low, SPAMMY[i]);
      assert Within(PHRASES[7 - i], low);
    }
    if HasPhrase(locale, s) {
      var i :| 0 <= i < 8 && Within(PHRASES[i], low);
      assert Text.Contains(low, SPAMMY[7 - i]);
    }
  }

  // ---- What normalisation does to the words --------------------------------------------------------------

  /** A subject with a word and without a phrase keeps its words; any other is replaced by the request subject. */
  lemma NormalizeKeepsWords(locale: Locale, subject: string, company: string)
    ensures Words(subject) != [] && !HasPhrase(locale, subject) ==>
              Words(Normalize(locale, subject, company)) == Words(subject)
              && Normalize(locale, subject, company) == Join(Words(subject))
    ensures Words(subject) == [] || HasPhrase(locale, subject) ==>
              Normalize(locale, subject, company) == RequestSubject(locale, company)
  {
    CollapseIsItsWords(subject);
    SpammyIsHasPhrase(locale, subject);
  }

  /** No company, or a placeholder for one. */
  predicate NoCompany(locale: Locale, company: string) {
    Words(company) == []
    || Lower(locale, Join(Words(company))) == "default"
    || Lower(locale, Join(Words(company))) == "organization"
    || Lower(locale, Join(Words(company))) == "default organization"
  }

  lemma CleanCompanyIs(locale: Locale, company: string)
    ensures CleanCompany(locale, company)
            == if NoCompany(locale, company) then ""
               else if locale.mentionsStayEz(Join(Words(company))) then "StayEZ"
               else Join(Words(company))
  {
    CollapseIsItsWords(company);
    hide Words, Join, Lower, Collapse;
  }

  lemma RequestWords()
    ensures IsWord("Rates") && IsWord("and") && IsWord("media") && IsWord("for") && IsWord("request") && IsWord("StayEZ")
    ensures Join(["StayEZ"]) == "StayEZ"
  {
  }

  lemma JoinIsNotEmpty(words: seq<string>)
    requires words != [] && forall i :: 0 <= i < |words| ==> IsWord(words[i])
    ensures Join(words) != ""
  {
    JoinIsTidy(words);
  }

  function RatesText(): string { "Rates and media for" }

  function RatesWords(): seq<string> { ["Rates", "and", "media", "for"] }

  lemma RatesFacts()
    ensures RatesWords() != [] && RatesText() == Join(RatesWords())
    ensures forall i :: 0 <= i < |RatesWords()| ==> IsWord(RatesWords()[i])
  {
    RequestTexts();
    RequestWords();
  }

  /** The request subject for a company whose cleaned name has these words. */
  lemma RequestFor(words: seq<string>)
    requires words != [] && forall i :: 0 <= i < |words| ==> IsWord(words[i])
    ensures Words(RatesText() + " " + Join(words)) == RatesWords() + words
  {
    hide Words, Join, IsWord, RatesText, RatesWords;
    RatesFacts();
    AppendWords(RatesWords(), words, RatesText());
  }

  lemma AppendWords(a: seq<string>, b: seq<string>, text: string)
    requires a != [] && b != [] && text == Join(a)
    requires forall i :: 0 <= i < |a| ==> IsWord(a[i])
    requires forall i :: 0 <= i < |b| ==> IsWord(b[i])
    ensures Words(text + " " + Join(b)) == a + b
  {
    hide Words, Join, IsWord;
    JoinAppend(a, b);
    WordsOfJoin(a + b);
  }

  /** The request subject names the company, if there is one, in its own words. */
  lemma RequestNamesCompany(locale: Locale, company: string)
    ensures NoCompany(locale, company) ==> RequestSubject(locale, company) == "Rates and media request"
    ensures !NoCompany(locale, company) ==>
              Words(RequestSubject(locale, company))
              == ["Rates", "and", "media", "for"]
                 + if locale.mentionsStayEz(Join(Words(company))) then ["StayEZ"] else Words(company)
  {
    CleanCompanyIs(locale, company);
    RequestWords();
    WordsAreWords(company);
    if !NoCompany(locale, company) {
      var words := if locale.mentionsStayEz(Join(Words(company))) then ["StayEZ"] else Words(company);
      assert words != [] && forall i :: 0 <= i < |words| ==> IsWord(words[i]);
      hide Words, Join, Lower, NoCompany, IsWord;
      JoinIsNotEmpty(words);
      RequestFor(words);
    }
  }

  lemma RequestTexts()
    ensures Join(["Rates", "and", "media", "for"]) == "Rates and media for"
  {
    assert ["Rates", "and", "media", "for"][1..] == ["and", "media", "for"];
    assert ["and", "media", "for"][1..] == ["media", "for"];
    assert ["media", "for"][1..] == ["for"];
  }

  lemma {:induction false} JoinAppend(a: seq<string>, b: seq<string>)
    requires a != [] && b != []
    ensures Join(a + b) == Join(a) + " " + Join(b)
  {
    if |a| == 1 {
      assert (a + b)[1..] == b;
    } else {
      assert (a + b)[1..] == a[1..] + b;
      JoinAppend(a[1..], b);
    }
  }

  // ---- Sequence subjects -----------------------------------------------------------------------------------

  /** The folded words start with a reply or forward mark. */
  predicate HasMark(locale: Locale, s: string) {
    var low := Lower(locale, Join(Words(s)));
    low[..Min(3, |low|)] == "re:" || low[..Min(3, |low|)] == "fw:" || low[..Min(4, |low|)] == "fwd:"
  }

  lemma MarkedIsHasMark(locale: Locale, s: string)
    ensures Marked(locale, Collapse(s)) <==> HasMark(locale, s)
  {
    CollapseIsItsWords(s);
  }

  /** A rendered subject without mark and phrase keeps its words. */
  lemma UnmarkedKeepsWords(locale: Locale, subject: string, company: string)
    requires Words(subject) != [] && !HasMark(locale, subject) && !HasPhrase(locale, subject)
    ensures Words(SequenceText(locale, subject, company)) == Words(subject)
  {
    CollapseIsItsWords(subject);
    CollapseIsItsWords(Collapse(subject));
    MarkedIsHasMark(locale, subject);
    NormalizeKeepsWords(locale, Collapse(subject), company);
  }

  /** A mark goes, with everything up to its colon: the subject is treated as what comes after. Repeating this
      leaves exactly the words after the last leading mark. */
  lemma MarkIsDropped(locale: Locale, subject: string, head: string, rest: string, company: string)
    requires Join(Words(subject)) == head + ":" + rest && ':' !in head
    requires HasMark(locale, subject)
    ensures SequenceText(locale, subject, company) == SequenceText(locale, rest, company)
  {
    CollapseIsItsWords(subject);
    MarkedIsHasMark(locale, subject);
    var text := Collapse(subject);
    assert text[|head|] == ':';
    FirstColon(text, |head|);
    assert AfterColon(text) == rest;
    CollapseIsTidy(subject);
    SuffixIsTidy(text, |head| + 1);
    assert text[|head| + 1..] == rest;
    TidyIsCollapsed(Strip(rest));
    CollapseIsItsWords(rest);
    CollapseIsItsWords(Strip(rest));
    StripKeepsWords(rest);
  }

  lemma {:induction false} FirstColon(text: string, k: nat)
    requires k < |text| && text[k] == ':' && forall i :: 0 <= i < k ==> text[i] != ':'
    ensures ColonAt(text) == k
  {
    if k > 0 {
      FirstColon(text[1..], k - 1);
    }
  }

  /** A subject of which nothing is left, or nothing was there, becomes the default text for the company,
      normalised like any other. */
  lemma NothingLeftIsDefault(locale: Locale, subject: string, company: string)
    requires Words(subject) == []
    ensures SequenceText(locale, subject, company) == Normalize(locale, "Rates and media for " + company, company)
  {
    CollapseIsItsWords(subject);
    assert !Marked(locale, "");
    var text := "Rates and media for " + company;
    StripKeepsWords(text);
    CollapseIsItsWords(text);
    CollapseIsItsWords(Strip(text));
  }
}
