// Slug derivation and probing: the character loop, against "the words joined by dashes".
module Slug {
  import opened Text

  predicate Alnum(c: char) {
    'a' <= c <= 'z' || '0' <= c <= '9'
  }

  predicate Separator(c: char) {
    c == ' ' || c == '-' || c == '_'
  }

  predicate AllAlnum(w: string) {
    forall i :: 0 <= i < |w| ==> Alnum(w[i])
  }

  predicate AlnumWord(w: string) {
    w != "" && AllAlnum(w)
  }

  predicate SlugChars(s: string) {
    forall i :: 0 <= i < |s| ==> s[i] == '-' || Alnum(s[i])
  }

  predicate AlnumWords(ws: seq<string>) {
    forall i :: 0 <= i < |ws| ==> AlnumWord(ws[i])
  }

  // The language of ^[a-z0-9]+(-[a-z0-9]+)*$ : non-empty alphanumeric fields between dashes.
  predicate SlugRe(s: string) {
    AlnumWords(Split(s, '-'))
  }

  // The Unicode tables behind strings.ToLower and strings.TrimSpace, of which only their
  // behaviour on slug characters matters.
  datatype Unicode = Unicode(lower: char -> char, space: char -> bool) {
    ghost predicate Valid() {
      forall c :: Alnum(c) || c == '-' ==> lower(c) == c && !space(c)
    }
  }

  function TrimLeft(s: string, drop: char -> bool): string {
    if s != "" && drop(s[0]) then TrimLeft(s[1..], drop) else s
  }

  function TrimRight(s: string, drop: char -> bool): string {
    if s != "" && drop(s[|s| - 1]) then TrimRight(s[..|s| - 1], drop) else s
  }

  function Trim(s: string, drop: char -> bool): string {
    TrimRight(TrimLeft(s, drop), drop)
  }

  // What is trimmed is what drops off the ends, and no more.
  lemma {:induction false} TrimMeans(s: string, drop: char -> bool) returns (a: string, b: string)
    ensures s == a + Trim(s, drop) + b
    ensures (forall i :: 0 <= i < |a| ==> drop(a[i])) && (forall i :: 0 <= i < |b| ==> drop(b[i]))
    ensures Trim(s, drop) != "" ==> !drop(Trim(s, drop)[0]) && !drop(Trim(s, drop)[|Trim(s, drop)| - 1])
  {
    var l;
    a, l := TrimLeftMeans(s, drop);
    b := TrimRightMeans(l, drop);
  }

  lemma {:induction false} TrimLeftMeans(s: string, drop: char -> bool) returns (a: string, l: string)
    ensures l == TrimLeft(s, drop) && s == a + l && forall i :: 0 <= i < |a| ==> drop(a[i])
    ensures l != "" ==> !drop(l[0])
  {
    a, l := "", s;
    if s != "" && drop(s[0]) {
      a, l := TrimLeftMeans(s[1..], drop);
      a := [s[0]] + a;
    }
  }

  lemma {:induction false} TrimRightMeans(s: string, drop: char -> bool) returns (b: string)
    ensures s == TrimRight(s, drop) + b && forall i :: 0 <= i < |b| ==> drop(b[i])
    ensures TrimRight(s, drop) != "" ==> !drop(TrimRight(s, drop)[|TrimRight(s, drop)| - 1]) && TrimRight(s, drop)[0] == s[0]
  {
    b := "";
    if s != "" && drop(s[|s| - 1]) {
      b := TrimRightMeans(s[..|s| - 1], drop);
      b := b + [s[|s| - 1]];
    }
  }

  function Lower(s: string, u: Unicode): (r: string)
    ensures |r| == |s| && forall i :: 0 <= i < |s| ==> r[i] == u.lower(s[i])
  {
    seq(|s|, i requires 0 <= i < |s| => u.lower(s[i]))
  }

  // ---------- reference definition ----------

  // Alphanumerics stay, separators become dashes, everything else is dropped.
  function Kept(s: string): string {
    if s == "" then ""
    else
      var c := s[|s| - 1];
      Kept(s[..|s| - 1]) + if Alnum(c) then [c] else if Separator(c) then "-" else ""
  }

  function NonEmpty(parts: seq<string>): seq<string> {
    if parts == [] then []
    else
      var last := parts[|parts| - 1];
      NonEmpty(parts[..|parts| - 1]) + if last == "" then [] else [last]
  }

  function Words(s: string): seq<string> {
    NonEmpty(Split(Kept(s), '-'))
  }

  function SlugOf(s: string): string {
    Join(Words(s), '-')
  }

  function Canonical(title: string, u: Unicode): string {
    SlugOf(Lower(Trim(title, u.space), u))
  }

  // ---------- words ----------

  lemma {:induction false} SplitAlnum(s: string)
    requires SlugChars(s)
    ensures forall i :: 0 <= i < |Split(s, '-')| ==> AllAlnum(Split(s, '-')[i])
  {
    if s != "" {
      SplitAlnum(s[1..]);
      var rest := Split(s[1..], '-');
      assert AllAlnum(rest[0]);
      assert s[0] != '-' ==> AllAlnum([s[0]] + rest[0]);
    }
  }

  lemma {:induction false} KeptChars(s: string)
    ensures SlugChars(Kept(s))
  {
    if s != "" {
      KeptChars(s[..|s| - 1]);
    }
  }

  lemma {:induction false} NonEmptyWords(parts: seq<string>)
    requires forall i :: 0 <= i < |parts| ==> AllAlnum(parts[i])
    ensures AlnumWords(NonEmpty(parts))
  {
    if parts != [] {
      NonEmptyWords(parts[..|parts| - 1]);
    }
  }

  lemma WordsAlnum(s: string)
    ensures AlnumWords(Words(s))
  {
    KeptChars(s);
    SplitAlnum(Kept(s));
    NonEmptyWords(Split(Kept(s), '-'));
  }

  lemma {:induction false} JoinSnoc(ws: seq<string>, w: string)
    requires ws != []
    ensures Join(ws + [w], '-') == Join(ws, '-') + "-" + w
  {
    if |ws| == 1 {
      assert (ws + [w])[1..] == [w];
    } else {
      JoinSnoc(ws[1..], w);
      assert (ws + [w])[1..] == ws[1..] + [w];
    }
  }

  // A join of words begins and ends inside a word.
  lemma {:induction false} JoinEnds(ws: seq<string>)
    requires AlnumWords(ws) && ws != []
    ensures var s := Join(ws, '-');
            s != "" && Alnum(s[0]) && Alnum(s[|s| - 1])
  {
    assert AlnumWord(ws[0]);
    if |ws| > 1 {
      JoinEnds(ws[1..]);
    }
  }

  lemma {:induction false} JoinChars(ws: seq<string>)
    requires AlnumWords(ws)
    ensures SlugChars(Join(ws, '-'))
  {
    if ws != [] {
      assert AlnumWord(ws[0]);
      JoinChars(ws[1..]);
    }
  }

  // ---------- one loop step ----------

  // The field being read is empty: at the start, or right after a separator.
  predicate AtBoundary(s: string) {
    var parts := Split(Kept(s), '-');
    parts[|parts| - 1] == ""
  }

  // An alphanumeric lengthens the last word, or starts one at a boundary.
  lemma StepWords(s: string, c: char) returns (init: seq<string>, last: string)
    requires Alnum(c)
    ensures Words(s) == init + (if last == "" then [] else [last]) && Words(s + [c]) == init + [last + [c]]
    ensures (last == "" <==> AtBoundary(s)) && !AtBoundary(s + [c])
  {
    var parts := Split(Kept(s), '-');
    var front := parts[..|parts| - 1];
    init, last := NonEmpty(front), parts[|parts| - 1];
    assert (s + [c])[..|s|] == s;
    assert Kept(s + [c]) == Kept(s) + [c];
    SplitSnoc(Kept(s), c, '-');
    assert Split(Kept(s + [c]), '-') == front + [last + [c]];
    assert (front + [last + [c]])[..|front|] == front;
  }

  lemma JoinLonger(init: seq<string>, last: string, c: char)
    ensures Join(init + [last + [c]], '-') ==
              Join(init + (if last == "" then [] else [last]), '-') + (if last == "" && init != [] then "-" else "") + [c]
  {
    assert init + [] == init;
    if init != [] {
      JoinSnoc(init, last + [c]);
      JoinSnoc(init, last);
    }
  }

  lemma StepAlnum(s: string, c: char)
    requires Alnum(c)
    ensures !AtBoundary(s + [c])
    ensures SlugOf(s + [c]) ==
              SlugOf(s) + (if AtBoundary(s) && SlugOf(s) != "" then "-" else "") + [c]
  {
    var init, last := StepWords(s, c);
    SlugEnds(s);
    hide Words, AtBoundary;
    JoinLonger(init, last, c);
    assert init + [] == init;
  }

  // A slug is empty exactly when there are no words; otherwise it begins and ends inside one.
  lemma SlugEnds(s: string)
    ensures SlugOf(s) == "" <==> Words(s) == []
    ensures SlugOf(s) != "" ==> Alnum(SlugOf(s)[0]) && Alnum(SlugOf(s)[|SlugOf(s)| - 1])
  {
    WordsAlnum(s);
    if Words(s) != [] {
      JoinEnds(Words(s));
    }
  }

  lemma StepSeparator(s: string, c: char)
    requires !Alnum(c) && Separator(c)
    ensures AtBoundary(s + [c]) && SlugOf(s + [c]) == SlugOf(s)
  {
    assert (s + [c])[..|s|] == s;
    SplitSnoc(Kept(s), '-', '-');
    var parts := Split(Kept(s), '-');
    assert (parts + [""])[..|parts|] == parts;
    assert Kept(s + [c]) == Kept(s) + ['-'];
    assert Words(s + [c]) == NonEmpty(parts + [""]) == NonEmpty(parts) + [] == Words(s);
  }

  lemma StepDropped(s: string, c: char)
    requires !Alnum(c) && !Separator(c)
    ensures SlugOf(s + [c]) == SlugOf(s) && AtBoundary(s + [c]) == AtBoundary(s)
  {
    assert (s + [c])[..|s|] == s;
    assert Kept(s + [c]) == Kept(s);
  }

  // Trimming dashes off a slug, with or without one dangling dash, leaves the slug.
  lemma TrimDash(slug: string)
    requires slug == "" || (Alnum(slug[0]) && Alnum(slug[|slug| - 1]))
    ensures Trim(slug, c => c == '-') == slug
    ensures slug != "" ==> Trim(slug + "-", c => c == '-') == slug
  {
    if slug != "" {
      assert (slug + "-")[..|slug|] == slug;
    }
  }

  // What the builder and its dash flag hold after reading some characters: the slug so far, with a
  // dash dangling at a boundary.
  predicate Builds(b: string, dash: bool, read: string) {
    b == SlugOf(read) + (if dash then "-" else "") && (dash <==> SlugOf(read) != "" && AtBoundary(read))
  }

  lemma StepBuilds(b: string, dash: bool, read: string, c: char)
    requires Builds(b, dash, read)
    ensures Alnum(c) ==> Builds(b + [c], false, read + [c])
    ensures !Alnum(c) && Separator(c) ==>
              if !dash && |b| > 0 then Builds(b + "-", true, read + [c]) else Builds(b, dash, read + [c])
    ensures !Alnum(c) && !Separator(c) ==> Builds(b, dash, read + [c])
  {
    if Alnum(c) {
      StepAlnum(read, c);
    } else if Separator(c) {
      StepSeparator(read, c);
    } else {
      StepDropped(read, c);
    }
  }

  // Trimming dashes off what was built leaves the slug.
  lemma TrimBuilt(b: string, dash: bool, read: string)
    requires Builds(b, dash, read)
    ensures Trim(b, c => c == '-') == SlugOf(read)
  {
    SlugEnds(read);
    TrimDash(SlugOf(read));
    assert !dash ==> b == SlugOf(read);
  }

  method Slugify(title: string, u: Unicode) returns (r: string)
    ensures r == Canonical(title, u)
  {
    var s := Lower(Trim(title, u.space), u);
    var b, dash := "", false;
    assert s[..0] == "" && SlugOf("") == "";
    for i := 0 to |s|
      invariant Builds(b, dash, s[..i])
    {
      var c := s[i];
      assert s[..i + 1] == s[..i] + [c];
      StepBuilds(b, dash, s[..i], c);
      if Alnum(c) {
        b := b + [c];
        dash := false;
      } else if Separator(c) {
        if !dash && |b| > 0 {
          b := b + "-";
          dash := true;
        }
      }
    }
    assert s[..|s|] == s;
    TrimBuilt(b, dash, s);
    r := Trim(b, c => c == '-');
  }

  // ---------- what a slug is ----------

  lemma SlugShape(title: string, u: Unicode)
    ensures var r := Canonical(title, u);
            r == "" || SlugRe(r)
  {
    var ws := Words(Lower(Trim(title, u.space), u));
    WordsAlnum(Lower(Trim(title, u.space), u));
    if ws != [] {
      forall i | 0 <= i < |ws| ensures '-' !in ws[i] {
        assert AlnumWord(ws[i]);
      }
      SplitJoin(ws, '-');
    }
  }

  lemma {:induction false} KeptIdentity(s: string)
    requires SlugChars(s)
    ensures Kept(s) == s
  {
    if s != "" {
      KeptIdentity(s[..|s| - 1]);
      assert s == s[..|s| - 1] + [s[|s| - 1]];
    }
  }

  lemma {:induction false} NonEmptyIdentity(ws: seq<string>)
    requires AlnumWords(ws)
    ensures NonEmpty(ws) == ws
  {
    if ws != [] {
      NonEmptyIdentity(ws[..|ws| - 1]);
      assert AlnumWord(ws[|ws| - 1]);
      assert ws == ws[..|ws| - 1] + [ws[|ws| - 1]];
    }
  }

  // The non-empty fixed points of Slugify are exactly the strings slugRe accepts.
  lemma SlugFixedPoints(s: string, u: Unicode)
    requires u.Valid()
    ensures s != "" && Canonical(s, u) == s <==> SlugRe(s)
  {
    SlugShape(s, u);
    if SlugRe(s) {
      JoinSplit(s, '-');
      JoinChars(Split(s, '-'));
      JoinEnds(Split(s, '-'));
      assert Trim(s, u.space) == s;
      assert Lower(s, u) == s;
      KeptIdentity(s);
      NonEmptyIdentity(Split(s, '-'));
    }
  }

  // The base used when a title leaves no slug characters.
  lemma EventIsASlug()
    ensures SlugRe("event")
  {
    SplitJoin(["event"], '-');
  }

  lemma SlugifyIdempotent(title: string, u: Unicode)
    requires u.Valid()
    ensures Canonical(Canonical(title, u), u) == Canonical(title, u)
  {
    SlugShape(title, u);
    if Canonical(title, u) != "" {
      SlugFixedPoints(Canonical(title, u), u);
    } else {
      assert Lower(Trim("", u.space), u) == "";
    }
  }

  // ---------- probing ----------

  // base, base-2, base-3, ...
  function Candidate(base: string, i: nat): string {
    if i <= 1 then base else base + "-" + Decimal(i)
  }

  lemma SlugExtends(base: string, w: string)
    requires SlugRe(base) && AlnumWord(w)
    ensures SlugRe(base + "-" + w)
  {
    var ws := Split(base, '-');
    JoinSplit(base, '-');
    JoinSnoc(ws, w);
    SplitFields(base, '-');
    SplitJoin(ws + [w], '-');
  }

  lemma CandidatesValidAndDistinct(base: string, i: nat, j: nat)
    requires SlugRe(base) && 1 <= i < j
    ensures SlugRe(Candidate(base, i)) && SlugRe(Candidate(base, j))
    ensures Candidate(base, i) != Candidate(base, j)
  {
    SlugExtends(base, Decimal(j));
    if i > 1 {
      SlugExtends(base, Decimal(i));
      if Candidate(base, i) == Candidate(base, j) {
        assert (base + "-" + Decimal(i))[|base| + 1..] == Decimal(i);
        assert (base + "-" + Decimal(j))[|base| + 1..] == Decimal(j);
        DecimalInjective(i, j);
      }
    }
  }

  predicate FirstFree(base: string, taken: set<string>, i: nat) {
    Candidate(base, i) !in taken && forall j :: 1 <= j < i ==> Candidate(base, j) in taken
  }

  // The first free candidate among base, base-2 .. base-99; a random suffix when all are taken.
  method UniqueSlug(base: string, taken: set<string>, raw: string) returns (slug: string, random: bool)
    requires SlugRe(base)
    requires AlnumWord(raw) && |raw| >= 6
    ensures SlugRe(slug)
    ensures !random ==> slug !in taken
    ensures !random ==> exists i :: 1 <= i < 100 && FirstFree(base, taken, i) && slug == Candidate(base, i)
    ensures random <==> forall i :: 1 <= i < 100 ==> Candidate(base, i) in taken
    ensures random ==> slug == base + "-" + raw[..6]
  {
    if base !in taken {
      assert FirstFree(base, taken, 1);
      return base, false;
    }
    var i := 2;
    while i < 100
      invariant 2 <= i <= 100
      invariant forall j :: 1 <= j < i ==> Candidate(base, j) in taken
    {
      var candidate := base + "-" + Decimal(i);
      CandidatesValidAndDistinct(base, 1, i);
      assert candidate == Candidate(base, i);
      if candidate !in taken {
        assert FirstFree(base, taken, i);
        return candidate, false;
      }
      i := i + 1;
    }
    SlugExtends(base, raw[..6]);
    return base + "-" + raw[..6], true;
  }
}
