/** The forecast view's text helpers: the display name, the download-file slug and
    names, and the per-model breakdown lines of the text download. */
module WeatherDisplay {
  import opened Optional
  import opened JsNumbers
  import opened JsText
  import opened JsConvert

  // ---------------- Display name ----------------

  /** The "lat, lon" label, both with two decimals. */
  function CoordinateLabel(lat: JsNumber, lon: JsNumber): string {
    ToFixed(lat, 2) + ", " + ToFixed(lon, 2)
  }

  /** `locationLabel ?? coordinateLabel`: a present label is shown as it is, even when empty. A
      missing one shows finite coordinates as a label that, split at its comma, reads back as
      the two coordinates rounded to two decimals. */
  function DisplayName(locationLabel: Option<string>, lat: JsNumber, lon: JsNumber): (n: string)
    ensures locationLabel.Some? ==> n == locationLabel.value
    ensures locationLabel.None? && lat.Fin? && lon.Fin? ==>
      var parts := Split(n, ',');
      |parts| == 2 && StringToNumber(parts[0]) == Fin(RoundFixed(lat.r, 2))
      && StringToNumber(parts[1]) == Fin(RoundFixed(lon.r, 2))
  {
    match locationLabel
    case Some(l) => l
    case None =>
      if lat.Fin? && lon.Fin? then
        CoordinateLabelReadsBack(lat.r, lon.r);
        CoordinateLabel(lat, lon)
      else CoordinateLabel(lat, lon)
  }

  /** `toFixed` of a finite value writes no comma, and neither starts nor ends with a blank. */
  lemma ToFixedPlain(x: real, d: nat)
    ensures var t := ToFixed(Fin(x), d);
      t != [] && ',' !in t && !IsWhitespace(t[0]) && !IsWhitespace(t[|t| - 1])
  {
    var sign := if x < 0.0 then "-" else "";
    var body := DecimalText(RoundedUnits(x, d), d);
    SignedPlain(ToFixed(Fin(x), d), sign, body);
  }

  lemma SignedPlain(t: string, sign: string, body: string)
    requires sign == "" || sign == "-"
    requires |body| >= 1 && IsDigit(body[0]) && IsDigit(body[|body| - 1]) && DecimalChars(body)
    requires t == sign + body
    ensures t != [] && ',' !in t && !IsWhitespace(t[0]) && !IsWhitespace(t[|t| - 1])
  {
    assert t[|t| - 1] == body[|body| - 1];
    forall k | 0 <= k < |t|
      ensures t[k] != ','
    {
      if k >= |sign| {
        assert t[k] == body[k - |sign|];
      }
    }
  }

  /** The coordinate label of finite coordinates, split at its comma, reads back as the two
      coordinates rounded to two decimals. */
  lemma CoordinateLabelReadsBack(lat: real, lon: real)
    ensures var parts := Split(CoordinateLabel(Fin(lat), Fin(lon)), ',');
      |parts| == 2 && StringToNumber(parts[0]) == Fin(RoundFixed(lat, 2))
      && StringToNumber(parts[1]) == Fin(RoundFixed(lon, 2))
  {
    var a := ToFixed(Fin(lat), 2);
    var b := ToFixed(Fin(lon), 2);
    ToFixedPlain(lat, 2);
    ToFixedPlain(lon, 2);
    SplitLabel(a, b);
    ToFixedRoundTrip(lat, 2);
    ToFixedRoundTrip(lon, 2);
    NumberSkipsBlank(b);
  }

  /** A label "a, b" splits at its comma into a and " b" when neither half holds a comma. */
  lemma SplitLabel(a: string, b: string)
    requires ',' !in a && ',' !in b
    ensures Split(a + ", " + b, ',') == [a, " " + b]
  {
    var blankB := " " + b;
    assert ',' !in blankB;
    assert Join([a, blankB], [',']) == a + [','] + Join([blankB], [',']);
    assert a + ", " + b == a + [','] + blankB;
    SplitJoin([a, blankB], ',');
  }

  // ---------------- File slug ----------------

  /** The characters `[a-z0-9]` matches under the `i` flag: ASCII letters and digits. */
  predicate IsAlnum(c: char) {
    'a' <= c <= 'z' || 'A' <= c <= 'Z' || '0' <= c <= '9'
  }

  predicate NotAlnum(c: char) {
    !IsAlnum(c)
  }

  /** The two character classes the slug replaces: `[^a-z0-9]` and `-`. */
  datatype CharClass = Other | Dash | Alnum

  predicate In(c: char, p: CharClass) {
    match p
    case Other => NotAlnum(c)
    case Dash => c == '-'
    case Alnum => IsAlnum(c)
  }

  /** First index at or after i whose character is not in the class p. */
  function RunEnd(s: string, i: nat, p: CharClass): (j: nat)
    requires i <= |s|
    ensures i <= j <= |s| && (j < |s| ==> !In(s[j], p))
    ensures i < |s| && In(s[i], p) ==> i < j
    ensures forall k :: i <= k < j ==> In(s[k], p)
    decreases |s| - i
  {
    if i < |s| && In(s[i], p) then RunEnd(s, i + 1, p) else i
  }

  /** `s.replace(/[…]+/g, "-")` for the character class p: every maximal run of characters
      of the class becomes one dash. */
  function DashRuns(s: string, p: CharClass): string
    decreases |s|
  {
    if s == [] then []
    else if !In(s[0], p) then [s[0]] + DashRuns(s[1..], p)
    else "-" + DashRuns(s[RunEnd(s, 0, p)..], p)
  }

  /** `s.replace(/^-|-$/g, "")`: one leading and one trailing dash removed. */
  function TrimDash(s: string): string {
    var u := if s != [] && s[0] == '-' then s[1..] else s;
    if u != [] && u[|u| - 1] == '-' then u[..|u| - 1] else u
  }

  /** The slug of a text: runs of anything but letters and digits become a dash, dash runs of two
      or more become one (a lone dash is already one), edge dashes go, and the rest is lower-cased.
      That is the words of the text (Words, below), lower-cased and joined by single dashes: only
      a-z, 0-9 and single inner dashes. */
  function Slug(s: string): (t: string)
    ensures t == ToLower(Join(Words(s), "-"))
    ensures SlugShaped(t)
  {
    SlugRewrites(s);
    WordsAreWords(s);
    JoinedWords(Words(s));
    LowerSlugChars(Join(Words(s), "-"));
    ToLower(TrimDash(DashRuns(DashRuns(s, Other), Dash)))
  }

  /** `baseFileSlug`, from the forecast date and the display name. */
  function BaseFileSlug(predictionFor: string, displayName: string): string {
    Slug(predictionFor + "-" + displayName)
  }

  // Reference definition: the words of the text.

  predicate Word(w: string) {
    w != [] && forall i :: 0 <= i < |w| ==> IsAlnum(w[i])
  }

  /** The maximal runs of letters and digits of s, in order. */
  function Words(s: string): seq<string>
    decreases |s|
  {
    if s == [] then []
    else if NotAlnum(s[0]) then Words(s[RunEnd(s, 0, Other)..])
    else
      var j := RunEnd(s, 0, Alnum);
      [s[..j]] + Words(s[j..])
  }

  /** Every word is a non-empty run of letters and digits. */
  lemma {:induction false} WordsAreWords(s: string)
    ensures forall k :: 0 <= k < |Words(s)| ==> Word(Words(s)[k])
    decreases |s|
  {
    if s != [] {
      if NotAlnum(s[0]) {
        WordsAreWords(s[RunEnd(s, 0, Other)..]);
      } else {
        var j := RunEnd(s, 0, Alnum);
        WordsAreWords(s[j..]);
        var ws := Words(s);
        assert ws == [s[..j]] + Words(s[j..]);
        forall k | 0 <= k < |ws|
          ensures Word(ws[k])
        {
          if k > 0 {
            assert ws[k] == Words(s[j..])[k - 1];
          }
        }
      }
    }
  }

  /** The letters and digits of s, in order. */
  function Alnums(s: string): string {
    if s == [] then [] else (if IsAlnum(s[0]) then [s[0]] else []) + Alnums(s[1..])
  }

  function Concat(ws: seq<string>): string {
    if ws == [] then [] else ws[0] + Concat(ws[1..])
  }

  predicate NoDoubleDash(t: string) {
    forall i :: 0 <= i < |t| - 1 ==> !(t[i] == '-' && t[i + 1] == '-')
  }

  /** What a slug looks like: lower-case letters, digits and single inner dashes. */
  predicate SlugShaped(t: string) {
    (forall i :: 0 <= i < |t| ==> 'a' <= t[i] <= 'z' || '0' <= t[i] <= '9' || t[i] == '-')
    && NoDoubleDash(t) && (t != [] ==> t[0] != '-' && t[|t| - 1] != '-')
  }

  /** A dash before the words when the text starts with something else. */
  function Lead(s: string): string {
    if s != [] && NotAlnum(s[0]) then "-" else ""
  }

  /** A dash after the words when there are words and the text ends with something else. */
  function Trail(s: string): string {
    if Words(s) != [] && NotAlnum(s[|s| - 1]) then "-" else ""
  }

  lemma {:induction false} AlnumPrefix(u: string, v: string)
    requires forall i :: 0 <= i < |u| ==> IsAlnum(u[i])
    ensures DashRuns(u + v, Other) == u + DashRuns(v, Other)
    decreases |u|
  {
    if u != [] {
      assert (u + v)[0] == u[0];
      assert (u + v)[1..] == u[1..] + v;
      AlnumPrefix(u[1..], v);
      assert u == [u[0]] + u[1..];
    } else {
      assert u + v == v;
    }
  }

  /** A text without words holds no letter or digit: its first run of other characters
      already reaches its end. */
  lemma NoWordsNoAlnum(u: string)
    requires Words(u) == []
    ensures forall i :: 0 <= i < |u| ==> NotAlnum(u[i])
  {
    if u != [] && IsAlnum(u[0]) {
      assert false;
    } else if u != [] && RunEnd(u, 0, Other) < |u| {
      assert false;
    }
  }

  lemma JoinCons(w: string, ws: seq<string>)
    requires ws != []
    ensures Join([w] + ws, "-") == w + "-" + Join(ws, "-")
  {
    assert ([w] + ws)[1..] == ws;
  }

  lemma GapStep(s: string)
    requires s != [] && NotAlnum(s[0])
    ensures var r := s[RunEnd(s, 0, Other)..];
      DashRuns(s, Other) == "-" + DashRuns(r, Other) && Words(s) == Words(r)
      && Lead(s) == "-" && (r == [] || Lead(r) == "") && Trail(s) == Trail(r)
  {
    var r := s[RunEnd(s, 0, Other)..];
    if r != [] {
      assert r[|r| - 1] == s[|s| - 1];
    }
  }

  lemma WordStep(s: string)
    requires s != [] && IsAlnum(s[0])
    ensures var j := RunEnd(s, 0, Alnum);
      DashRuns(s, Other) == s[..j] + DashRuns(s[j..], Other)
      && Words(s) == [s[..j]] + Words(s[j..]) && Lead(s) == ""
      && (s[j..] != [] ==> Lead(s[j..]) == "-" && s[j..][|s[j..]| - 1] == s[|s| - 1])
  {
    var j := RunEnd(s, 0, Alnum);
    assert s == s[..j] + s[j..];
    AlnumPrefix(s[..j], s[j..]);
  }

  /** The first pass turns the text into its words joined by dashes, with a dash in front
      or behind where the text starts or ends with something else. */
  lemma {:induction false} CollapsedRuns(s: string)
    ensures DashRuns(s, Other) == Lead(s) + Join(Words(s), "-") + Trail(s)
    decreases |s|, 1
  {
    if s != [] && NotAlnum(s[0]) {
      CollapsedGap(s);
    } else if s != [] {
      CollapsedWord(s);
    }
  }

  lemma {:induction false} CollapsedGap(s: string)
    requires s != [] && NotAlnum(s[0])
    ensures DashRuns(s, Other) == Lead(s) + Join(Words(s), "-") + Trail(s)
    decreases |s|, 0
  {
    var r := s[RunEnd(s, 0, Other)..];
    var j := Join(Words(r), "-");
    var t := Trail(r);
    assert DashRuns(r, Other) == j + t by {
      CollapsedRuns(r);
      GapStep(s);
    }
    assert DashRuns(s, Other) == "-" + DashRuns(r, Other) && Lead(s) == "-"
      && Words(s) == Words(r) && t == Trail(s) by {
      GapStep(s);
    }
    assert "-" + (j + t) == "-" + j + t;
  }

  lemma {:induction false} CollapsedWord(s: string)
    requires s != [] && IsAlnum(s[0])
    ensures DashRuns(s, Other) == Lead(s) + Join(Words(s), "-") + Trail(s)
    decreases |s|, 0
  {
    var r := s[RunEnd(s, 0, Alnum)..];
    if r == [] {
      WordAlone(s);
    } else {
      CollapsedRuns(r);
      if Words(r) == [] {
        WordThenGap(s);
      } else {
        WordThenWords(s);
      }
    }
  }

  /** A text that is one word is kept as it is. */
  lemma WordAlone(s: string)
    requires s != [] && IsAlnum(s[0]) && RunEnd(s, 0, Alnum) == |s|
    ensures DashRuns(s, Other) == Lead(s) + Join(Words(s), "-") + Trail(s)
  {
    assert DashRuns(s, Other) == s && Words(s) == [s] && Lead(s) == "" by {
      WordStep(s);
      assert s[..|s|] == s;
    }
    assert Trail(s) == "" && Join([s], "-") == s;
    EmptyFrame(DashRuns(s, Other), Lead(s), Join(Words(s), "-"), Trail(s));
  }

  lemma EmptyFrame(ds: string, lead: string, j: string, trail: string)
    requires lead == "" && trail == "" && ds == j
    ensures ds == lead + j + trail
  {
  }

  /** A word followed by other characters only: the word and one dash. */
  lemma WordThenGap(s: string)
    requires s != [] && IsAlnum(s[0])
    requires var r := s[RunEnd(s, 0, Alnum)..];
      r != [] && Words(r) == [] && DashRuns(r, Other) == Lead(r) + Join(Words(r), "-") + Trail(r)
    ensures DashRuns(s, Other) == Lead(s) + Join(Words(s), "-") + Trail(s)
  {
    var j := RunEnd(s, 0, Alnum);
    var w := s[..j];
    var r := s[j..];
    assert DashRuns(s, Other) == w + DashRuns(r, Other) && Words(s) == [w] && Lead(s) == "" by {
      WordStep(s);
    }
    assert DashRuns(r, Other) == "-" by {
      WordStep(s);
    }
    assert Trail(s) == "-" by {
      WordStep(s);
      NoWordsNoAlnum(r);
    }
    assert Join([w], "-") == w;
    DashFrame(DashRuns(s, Other), w, DashRuns(r, Other), Lead(s), Join(Words(s), "-"), Trail(s));
  }

  lemma DashFrame(ds: string, w: string, dr: string, lead: string, j: string, trail: string)
    requires ds == w + dr && dr == "-" && lead == "" && j == w && trail == "-"
    ensures ds == lead + j + trail
  {
  }

  /** A word followed by more words: the word, a dash, and the rest collapsed. */
  lemma WordThenWords(s: string)
    requires s != [] && IsAlnum(s[0])
    requires var r := s[RunEnd(s, 0, Alnum)..];
      r != [] && Words(r) != [] && DashRuns(r, Other) == Lead(r) + Join(Words(r), "-") + Trail(r)
    ensures DashRuns(s, Other) == Lead(s) + Join(Words(s), "-") + Trail(s)
  {
    var j := RunEnd(s, 0, Alnum);
    var w := s[..j];
    var r := s[j..];
    var rest := Join(Words(r), "-");
    assert DashRuns(s, Other) == w + DashRuns(r, Other) && Words(s) == [w] + Words(r)
      && Lead(s) == "" && Lead(r) == "-" by {
      WordStep(s);
    }
    assert Trail(r) == Trail(s) by {
      WordStep(s);
    }
    assert Join(Words(s), "-") == w + "-" + rest by {
      JoinCons(w, Words(r));
    }
    Glue(DashRuns(s, Other), w, DashRuns(r, Other), rest, Trail(s));
  }

  lemma Glue(ds: string, w: string, dr: string, rest: string, trail: string)
    requires ds == w + dr && dr == "-" + rest + trail
    ensures ds == "" + (w + "-" + rest) + trail
  {
  }

  /** Words joined by dashes: letters, digits and single dashes, a letter or digit at each end. */
  lemma {:induction false} JoinedWords(ws: seq<string>)
    requires forall k :: 0 <= k < |ws| ==> Word(ws[k])
    ensures var t := Join(ws, "-");
      (forall i :: 0 <= i < |t| ==> IsAlnum(t[i]) || t[i] == '-') && NoDoubleDash(t)
      && (ws != [] ==> t != [] && IsAlnum(t[0]) && IsAlnum(t[|t| - 1]))
  {
    if |ws| == 1 {
    } else if |ws| > 1 {
      var w := ws[0];
      var rest := Join(ws[1..], "-");
      JoinedWords(ws[1..]);
      assert [w] + ws[1..] == ws;
      JoinCons(w, ws[1..]);
      var t := w + "-" + rest;
      forall i | 0 <= i < |t|
        ensures IsAlnum(t[i]) || t[i] == '-'
      {
        if i > |w| {
          assert t[i] == rest[i - |w| - 1];
        }
      }
      forall i | 0 <= i < |t| - 1
        ensures !(t[i] == '-' && t[i + 1] == '-')
      {
        if i > |w| {
          assert t[i] == rest[i - |w| - 1] && t[i + 1] == rest[i - |w|];
        }
      }
      assert t[|t| - 1] == rest[|rest| - 1];
    }
  }

  /** The dash pass changes nothing in a text without two dashes in a row. */
  lemma {:induction false} SingleDashesKept(s: string)
    requires NoDoubleDash(s)
    ensures DashRuns(s, Dash) == s
    decreases |s|
  {
    if s != [] {
      assert NoDoubleDash(s[1..]) by {
        forall i | 0 <= i < |s[1..]| - 1
          ensures !(s[1..][i] == '-' && s[1..][i + 1] == '-')
        {
          assert s[1..][i] == s[i + 1] && s[1..][i + 1] == s[i + 2];
        }
      }
      SingleDashesKept(s[1..]);
      if s[0] == '-' {
        assert RunEnd(s, 0, Dash) == 1;
      }
      assert s == [s[0]] + s[1..];
    }
  }

  /** Words joined by dashes with an optional dash at each end: no two dashes in a row, and
      trimming the edge dashes leaves the joined words. */
  lemma Framed(lead: string, j: string, trail: string)
    requires lead == "" || lead == "-"
    requires trail == "" || (trail == "-" && j != [])
    requires NoDoubleDash(j) && (j != [] ==> IsAlnum(j[0]) && IsAlnum(j[|j| - 1]))
    ensures NoDoubleDash(lead + j + trail) && TrimDash(lead + j + trail) == j
  {
    var d := lead + j + trail;
    var l := |lead|;
    forall i | 0 <= i < |d| - 1
      ensures !(d[i] == '-' && d[i + 1] == '-')
    {
      if i + 1 < l + |j| && i >= l {
        assert d[i] == j[i - l] && d[i + 1] == j[i + 1 - l];
      } else if i < l {
        assert j != [] ==> d[i + 1] == j[0];
      } else {
        assert d[i] == j[|j| - 1];
      }
    }
    var u := if d != [] && d[0] == '-' then d[1..] else d;
    assert u == j + trail;
  }

  /** The three replacements leave the words of the text joined by single dashes. */
  lemma SlugRewrites(s: string)
    ensures TrimDash(DashRuns(DashRuns(s, Other), Dash)) == Join(Words(s), "-")
  {
    var ws := Words(s);
    var j := Join(ws, "-");
    var d := DashRuns(s, Other);
    assert d == Lead(s) + j + Trail(s) by {
      CollapsedRuns(s);
    }
    assert NoDoubleDash(d) && TrimDash(d) == j by {
      WordsAreWords(s);
      JoinedWords(ws);
      Framed(Lead(s), j, Trail(s));
    }
    SingleDashesKept(d);
  }

  lemma LowerSlugChars(t: string)
    requires (forall i :: 0 <= i < |t| ==> IsAlnum(t[i]) || t[i] == '-') && NoDoubleDash(t)
    requires t != [] ==> IsAlnum(t[0]) && IsAlnum(t[|t| - 1])
    ensures SlugShaped(ToLower(t))
  {
  }

  lemma {:induction false} AlnumsAppend(a: string, b: string)
    ensures Alnums(a + b) == Alnums(a) + Alnums(b)
    decreases |a|
  {
    if a == [] {
      assert a + b == b;
    } else {
      var head := if IsAlnum(a[0]) then [a[0]] else [];
      assert (a + b)[0] == a[0];
      assert (a + b)[1..] == a[1..] + b;
      AlnumsAppend(a[1..], b);
      assert Alnums(a + b) == head + Alnums(a[1..] + b);
      assert Alnums(a) == head + Alnums(a[1..]);
    }
  }

  lemma {:induction false} AlnumsOfRun(u: string, letters: bool)
    requires forall i :: 0 <= i < |u| ==> IsAlnum(u[i]) == letters
    ensures Alnums(u) == if letters then u else []
    decreases |u|
  {
    if u != [] {
      AlnumsOfRun(u[1..], letters);
      assert u == [u[0]] + u[1..];
    }
  }

  /** The words hold every letter and digit of the text, in order, and nothing else. */
  lemma {:induction false} WordsHoldAlnums(s: string)
    ensures Concat(Words(s)) == Alnums(s)
    decreases |s|
  {
    if s != [] {
      var i := if NotAlnum(s[0]) then RunEnd(s, 0, Other) else RunEnd(s, 0, Alnum);
      assert s == s[..i] + s[i..];
      AlnumsAppend(s[..i], s[i..]);
      AlnumsOfRun(s[..i], !NotAlnum(s[0]));
      WordsHoldAlnums(s[i..]);
      if !NotAlnum(s[0]) {
        var ws := Words(s);
        assert ws == [s[..i]] + Words(s[i..]);
        assert ws[1..] == Words(s[i..]);
      }
    }
  }

  /** Every letter and digit of the text survives in the slug, in order and lower-cased. */
  lemma SlugKeepsLettersAndDigits(s: string)
    ensures Concat(Words(s)) == Alnums(s)
    ensures Slug(s) == ToLower(Join(Words(s), "-"))
  {
    WordsHoldAlnums(s);
  }

  // ---------------- Download names ----------------

  /** `analyze-${baseFileSlug || "forecast"}` followed by the extension: the stem between the
      two is never empty, and is slug-shaped when the slug is. */
  function FileName(slug: string, ext: string): (n: string)
    ensures |n| >= 8 + |ext| && n[..8] == "analyze-" && n[|n| - |ext|..] == ext
    ensures var stem := n[8..|n| - |ext|];
      && stem == (if slug == [] then "forecast" else slug)
      && stem != []
      && (SlugShaped(slug) ==> SlugShaped(stem))
  {
    var stem := if slug == "" then "forecast" else slug;
    var n := "analyze-" + stem + ext;
    assert n[8..|n| - |ext|] == stem;
    n
  }

  /** The slug is empty exactly when the text has no letter or digit. */
  lemma EmptySlug(s: string)
    ensures Slug(s) == [] <==> Alnums(s) == []
  {
    SlugKeepsLettersAndDigits(s);
    var ws := Words(s);
    if ws != [] {
      WordsAreWords(s);
      JoinedWords(ws);
      assert Concat(ws) == ws[0] + Concat(ws[1..]);
    }
  }

  /** The download name is "analyze-", a non-empty slug-shaped stem, and the extension; the stem
      is "forecast" exactly when the text has no letter or digit, and the slug otherwise. */
  lemma DownloadName(predictionFor: string, displayName: string, ext: string)
    ensures var text := predictionFor + "-" + displayName;
      var n := FileName(BaseFileSlug(predictionFor, displayName), ext);
      var stem := n[8..|n| - |ext|];
      n[..8] == "analyze-" && n[|n| - |ext|..] == ext && stem != [] && SlugShaped(stem)
      && (Alnums(text) == [] ==> stem == "forecast")
      && (Alnums(text) != [] ==> stem == BaseFileSlug(predictionFor, displayName))
  {
    var text := predictionFor + "-" + displayName;
    EmptySlug(text);
  }

  // ---------------- Model breakdown ----------------

  /** `NAME: value<unit>` for one model; the number format is a parameter. */
  function BreakdownLine(name: string, value: JsNumber, unit: string, format: JsNumber -> string): string {
    ToUpper(name) + ": " + format(value) + unit
  }

  function BreakdownLines(records: seq<(string, JsNumber)>, unit: string, format: JsNumber -> string): seq<string> {
    seq(|records|, i requires 0 <= i < |records| => BreakdownLine(records[i].0, records[i].1, unit, format))
  }

  /** `formatModelBreakdown`: one line per entry, joined with line breaks; empty for no
      entries, and otherwise led by the first entry's upper-cased name and a colon. */
  function FormatModelBreakdown(records: seq<(string, JsNumber)>, unit: string, format: JsNumber -> string): (b: string)
    ensures records == [] ==> b == ""
    ensures records != [] ==> ToUpper(records[0].0) + ": " <= b
  {
    var lines := BreakdownLines(records, unit, format);
    assert records != [] ==> lines[0] <= Join(lines, "\n");
    Join(lines, "\n")
  }

  /** The breakdown has one line per entry, in entry order, each the upper-cased name, a colon,
      the formatted value and the unit (when no name, value text or unit holds a line break);
      no entries give an empty text. */
  lemma BreakdownOneLinePerEntry(records: seq<(string, JsNumber)>, unit: string, format: JsNumber -> string)
    requires '\n' !in unit
    requires forall i :: 0 <= i < |records| ==> '\n' !in records[i].0 && '\n' !in format(records[i].1)
    ensures records == [] ==> FormatModelBreakdown(records, unit, format) == ""
    ensures records != [] ==>
      var lines := Split(FormatModelBreakdown(records, unit, format), '\n');
      |lines| == |records| &&
      forall i :: 0 <= i < |records| ==>
        var upper := ToUpper(records[i].0);
        lines[i] == upper + ": " + format(records[i].1) + unit
        && (forall k :: 0 <= k < |upper| ==> !('a' <= upper[k] <= 'z'))
  {
    var lines := BreakdownLines(records, unit, format);
    if records != [] {
      forall i | 0 <= i < |lines|
        ensures '\n' !in lines[i]
      {
        var upper := ToUpper(records[i].0);
        assert forall k :: 0 <= k < |upper| ==> upper[k] != '\n';
      }
      SplitJoin(lines, '\n');
    }
  }
}
