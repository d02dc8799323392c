/** Which texts name a directory the applier can be asked for, and what they name. */
module GuestPathText {
  import opened Wrappers
  import opened RepairApplier
  import opened PosixPath
  import RepairPlanner

  /** One or two slashes, names joined by slashes, and any number of slashes behind. */
  datatype Spelling = Spelling(two: bool, parts: seq<string>, trailing: nat)

  function Slashes(n: nat): (r: string)
    ensures |r| == n && forall i | 0 <= i < n :: r[i] == '/'
  {
    seq(n, i => '/')
  }

  function RootText(two: bool): string {
    if two then "//" else "/"
  }

  function Text(w: Spelling): string {
    RootText(w.two) + Join(w.parts) + Slashes(w.trailing)
  }

  predicate PlainName(name: string) {
    name != "" && name != "." && '/' !in name
  }

  predicate PlainNames(parts: seq<string>) {
    forall i | 0 <= i < |parts| :: PlainName(parts[i])
  }

  /** Names that lead down, and not into a pseudo filesystem by way of a single slash. */
  predicate Sound(w: Spelling) {
    && w.parts != [] && PlainNames(w.parts)
    && (forall i | 0 <= i < |w.parts| :: w.parts[i] != ".." && '\0' !in w.parts[i])
    && (!w.two ==> w.parts[0] !in {"proc", "sys", "dev"})
  }

  // ----- splitting what was joined -----

  lemma {:induction false} SplitConcat(name: string, rest: string)
    requires '/' !in name
    ensures Split(name + "/" + rest) == [name] + Split(rest)
  {
    if name == "" {
      assert name + "/" + rest == "/" + rest && ("/" + rest)[1..] == rest;
    } else {
      SplitConcat(name[1..], rest);
      assert name == [name[0]] + name[1..];
      assert (name + "/" + rest)[1..] == name[1..] + "/" + rest;
    }
  }

  lemma {:induction false} SplitPlain(name: string)
    requires '/' !in name
    ensures Split(name) == [name]
  {
    if name != "" {
      SplitPlain(name[1..]);
      assert name == [name[0]] + name[1..];
    }
  }

  lemma {:induction false} SplitJoined(parts: seq<string>)
    requires parts != [] && PlainNames(parts)
    ensures Split(Join(parts)) == parts
  {
    hide Split;
    if |parts| == 1 {
      SplitPlain(parts[0]);
    } else {
      SplitJoined(parts[1..]);
      SplitConcat(parts[0], Join(parts[1..]));
      assert parts == [parts[0]] + parts[1..];
    }
  }

  lemma {:induction false} SplitTrailing(s: string)
    ensures Split(s + "/") == Split(s) + [""]
  {
    if s == "" {
      assert s + "/" == "/" && "/"[1..] == "";
      assert Split("") == [""];
    } else {
      SplitTrailing(s[1..]);
      assert (s + "/")[1..] == s[1..] + "/";
    }
  }

  lemma {:induction false} NamedPlain(parts: seq<string>)
    requires PlainNames(parts)
    ensures Named(parts) == parts
  {
    if parts != [] {
      NamedPlain(parts[1..]);
    }
  }

  lemma {:induction false} NamedEmptyLast(pieces: seq<string>)
    ensures Named(pieces + [""]) == Named(pieces)
  {
    if pieces == [] {
      assert pieces + [""] == [""] && [""][1..] == [];
      assert Named([]) == [];
    } else {
      NamedEmptyLast(pieces[1..]);
      assert (pieces + [""])[1..] == pieces[1..] + [""];
    }
  }

  lemma {:induction false} NamedEmptyFirst(pieces: seq<string>)
    ensures Named([""] + pieces) == Named(pieces)
  {
    assert ([""] + pieces)[1..] == pieces;
  }

  lemma {:induction false} TrailingIgnored(s: string, n: nat)
    ensures Components(s + Slashes(n)) == Components(s)
  {
    if n == 0 {
      assert s + Slashes(n) == s;
    } else {
      TrailingIgnored(s, n - 1);
      assert Slashes(n) == Slashes(n - 1) + "/";
      assert s + Slashes(n) == (s + Slashes(n - 1)) + "/";
      SplitTrailing(s + Slashes(n - 1));
      NamedEmptyLast(Split(s + Slashes(n - 1)));
    }
  }

  lemma {:induction false} LeadingIgnored(s: string)
    ensures Components("/" + s) == Components(s)
  {
    assert "" + "/" + s == "/" + s;
    SplitConcat("", s);
    NamedEmptyFirst(Split(s));
  }

  /** A spelling's components are its names. */
  lemma {:induction false} SpelledComponents(w: Spelling)
    requires w.parts != [] && PlainNames(w.parts)
    ensures Components(Text(w)) == w.parts
  {
    hide Split, Named, Slashes, Join;
    var names := Join(w.parts);
    TrailingIgnored(RootText(w.two) + names, w.trailing);
    SplitJoined(w.parts);
    NamedPlain(w.parts);
    LeadingIgnored(names);
    if w.two {
      LeadingIgnored("/" + names);
      assert "//" + names == "/" + ("/" + names);
    }
  }

  // ----- what is accepted -----

  lemma {:induction false} JoinStartsPlain(parts: seq<string>)
    requires parts != [] && PlainNames(parts)
    ensures Join(parts) != "" && Join(parts)[0] != '/' && Join(parts)[|Join(parts)| - 1] != '/'
    ensures parts[0] <= Join(parts) && (|parts| > 1 ==> parts[0] + "/" <= Join(parts))
  {
    if |parts| > 1 {
      JoinStartsPlain(parts[1..]);
    } else {
      assert PlainName(parts[0]);
    }
  }

  lemma {:induction false} Stripped(s: string, n: nat)
    requires s != "" && s[|s| - 1] != '/'
    ensures StripSlashes(s + Slashes(n)) == s
  {
    if n == 0 {
      assert s + Slashes(n) == s;
    } else {
      Stripped(s, n - 1);
      assert (s + Slashes(n))[..|s| + n - 1] == s + Slashes(n - 1);
    }
  }

  lemma {:induction false} RootOfText(w: Spelling)
    requires w.parts != [] && PlainNames(w.parts)
    ensures Root(Text(w)) == RootText(w.two)
  {
    JoinStartsPlain(w.parts);
  }

  /** A spelling in normal form is its text without the slashes behind. */
  lemma {:induction false} SpelledNormal(w: Spelling)
    requires w.parts != [] && PlainNames(w.parts)
    ensures AsPosix(Text(w)) == StripSlashes(Text(w)) == RootText(w.two) + Join(w.parts)
  {
    hide Slashes, Join, Components, Root, StripSlashes;
    SpelledComponents(w);
    RootOfText(w);
    JoinStartsPlain(w.parts);
    Stripped(RootText(w.two) + Join(w.parts), w.trailing);
  }

  /** No denied prefix is reached from two slashes, and from one exactly the pseudo filesystems are. */
  lemma {:induction false} SpelledDenied(w: Spelling)
    requires w.parts != [] && PlainNames(w.parts)
    ensures Denied(RootText(w.two) + Join(w.parts)) <==> !w.two && w.parts[0] in {"proc", "sys", "dev"}
  {
    JoinStartsPlain(w.parts);
    forall i | 0 <= i < |DENIED|
      ensures Below(RootText(w.two) + Join(w.parts), DENIED[i]) <==> !w.two && DENIED[i] == "/" + w.parts[0]
    {
      BelowFirst(w, DENIED[i][1..]);
      assert DENIED[i] == "/" + DENIED[i][1..] && '/' !in DENIED[i][1..];
    }
    assert DENIED[0] == "/" + "proc" && DENIED[1] == "/" + "sys" && DENIED[2] == "/" + "dev";
    SameTail("proc", w.parts[0]);
    SameTail("sys", w.parts[0]);
    SameTail("dev", w.parts[0]);
  }

  lemma {:induction false} SameTail(a: string, b: string)
    ensures "/" + a == "/" + b <==> a == b
  {
    assert ("/" + a)[1..] == a && ("/" + b)[1..] == b;
  }

  lemma {:induction false} BelowFirst(w: Spelling, name: string)
    requires w.parts != [] && PlainNames(w.parts) && '/' !in name && name != ""
    ensures Below(RootText(w.two) + Join(w.parts), "/" + name) <==> !w.two && name == w.parts[0]
  {
    var text := RootText(w.two) + Join(w.parts);
    JoinStartsPlain(w.parts);
    if w.two {
      assert text[1] == '/';
      assert ("/" + name)[1] == name[0] && name[0] in name;
    } else {
      assert text[1..] == Join(w.parts);
      FirstName(Join(w.parts), w.parts[0], name);
      if |w.parts| == 1 {
        assert Join(w.parts) == w.parts[0];
      }
      assert Below(text, "/" + name) <==> Join(w.parts) == name || name + "/" <= Join(w.parts);
    }
  }

  lemma {:induction false} FirstName(joined: string, first: string, name: string)
    requires '/' !in first && '/' !in name && (joined == first || first + "/" <= joined)
    ensures joined == name || name + "/" <= joined <==> name == first
  {
    EndsAtSlash(joined, first, name);
    if joined == name || name + "/" <= joined {
      EndsAtSlash(joined, name, first);
      assert name <= joined && first <= joined;
    }
  }

  /** A longer beginning of a text that has a slash where a shorter one ends has a slash in it. */
  lemma {:induction false} EndsAtSlash(joined: string, a: string, b: string)
    requires joined == a || a + "/" <= joined
    ensures b <= joined && |a| < |b| ==> '/' in b
  {
    if b <= joined && |a| < |b| {
      assert joined[|a|] == '/' && b[|a|] == joined[|a|];
    }
  }

  /** Every sound spelling is accepted, and names its parts. */
  lemma {:induction false} SpellingAccepted(w: Spelling)
    requires Sound(w)
    ensures GuestPath(Text(w)) == Ok(w.parts)
  {
    SpelledComponents(w);
    SpelledNormal(w);
    SpelledDenied(w);
    NoNul(w);
    JoinStartsPlain(w.parts);
    hide Components, StripSlashes, Denied, Join;
  }

  lemma {:induction false} NoNul(w: Spelling)
    requires Sound(w)
    ensures '\0' !in Text(w)
  {
    JoinNoNul(w.parts);
  }

  lemma {:induction false} JoinNoNul(parts: seq<string>)
    ensures '\0' in Join(parts) <==> exists i :: 0 <= i < |parts| && '\0' in parts[i]
  {
    if |parts| > 1 {
      JoinNoNul(parts[1..]);
      assert forall i | 0 < i < |parts| :: parts[i] == parts[1..][i - 1];
    }
  }

  lemma {:induction false} PiecesPlain(s: string)
    ensures forall i | 0 <= i < |Split(s)| :: '/' !in Split(s)[i]
  {
    if s != "" {
      PiecesPlain(s[1..]);
    }
  }

  lemma {:induction false} NamedArePlain(pieces: seq<string>)
    requires forall i | 0 <= i < |pieces| :: '/' !in pieces[i]
    ensures PlainNames(Named(pieces))
  {
    if pieces != [] {
      NamedArePlain(pieces[1..]);
    }
  }

  /** What stripping takes off, put back. */
  lemma {:induction false} StripBack(s: string)
    ensures exists n: nat :: s == StripSlashes(s) + Slashes(n)
  {
    if s != "" && s[|s| - 1] == '/' {
      StripBack(s[..|s| - 1]);
      var n: nat :| s[..|s| - 1] == StripSlashes(s[..|s| - 1]) + Slashes(n);
      assert s == StripSlashes(s) + Slashes(n + 1);
    } else {
      assert s == StripSlashes(s) + Slashes(0);
    }
  }

  /** The applier takes exactly the sound spellings. */
  lemma {:induction false} AcceptedExactly(s: string)
    ensures GuestPath(s).Ok? <==> exists w :: Sound(w) && s == Text(w)
    ensures forall w | Sound(w) && s == Text(w) :: GuestPath(s) == Ok(w.parts)
  {
    forall w | Sound(w) && s == Text(w) ensures GuestPath(s) == Ok(w.parts) {
      SpellingAccepted(w);
    }
    if GuestPath(s).Ok? {
      var w := SpellingOf(s);
    }
  }

  lemma {:induction false} SpellingOf(s: string) returns (w: Spelling)
    requires GuestPath(s).Ok?
    ensures Sound(w) && s == Text(w)
  {
    var parts := Components(s);
    PiecesPlain(s);
    NamedArePlain(Split(s));
    StripBack(s);
    var n: nat :| s == StripSlashes(s) + Slashes(n);
    w := Spelling(Root(s) == "//", parts, n);
    NormalHasParts(s);
    assert s == Text(w);
    SpelledDenied(w);
    NoNulBack(w);
  }

  /** A text in normal form is its root and its components. */
  lemma {:induction false} NormalHasParts(s: string)
    requires GuestPath(s).Ok?
    ensures Components(s) != [] && Root(s) in {"/", "//"} && StripSlashes(s) == Root(s) + Join(Components(s))
    ensures AsPosix(s) == StripSlashes(s) && !Denied(AsPosix(s)) && ".." !in Components(s) && '\0' !in s
  {
    StripNever(s);
    hide Components, StripSlashes, Denied;
  }

  /** Stripping leaves no slash behind. */
  lemma {:induction false} StripNever(s: string)
    ensures StripSlashes(s) == "" || StripSlashes(s)[|StripSlashes(s)| - 1] != '/'
  {
    if s != "" && s[|s| - 1] == '/' {
      StripNever(s[..|s| - 1]);
    }
  }

  lemma {:induction false} NoNulBack(w: Spelling)
    requires '\0' !in Text(w)
    ensures forall i | 0 <= i < |w.parts| :: '\0' !in w.parts[i]
  {
    JoinNoNul(w.parts);
    var names := Join(w.parts);
    assert forall c | c in names :: c in Text(w);
  }

  /** What the planner takes for a sound path outside the pseudo filesystems, other than the root, the applier takes too. */
  lemma {:induction false} PlannerAgrees(s: string)
    ensures GuestPath(s).Ok? <==> RepairPlanner.PathIsValid(s) && s != "/" && !RepairPlanner.IsPseudo(s)
  {
    hide Components, StripSlashes;
    if RepairPlanner.PathIsValid(s) && s != "/" {
      forall i | 0 <= i < |DENIED| ensures Below(StripSlashes(s), DENIED[i]) <==> Below(s, DENIED[i]) {
        if Below(StripSlashes(s), DENIED[i]) {
          RepairPlanner.DeniedIsPseudo(s, DENIED[i]);
        }
        if Below(s, DENIED[i]) {
          StripsBelow(s, DENIED[i]);
        }
      }
    }
  }

  lemma {:induction false} StripsBelow(s: string, prefix: string)
    requires Below(s, prefix) && prefix != "" && prefix[|prefix| - 1] != '/'
    ensures Below(StripSlashes(s), prefix)
  {
    if s != prefix && s[|s| - 1] == '/' {
      var t := s[..|s| - 1];
      if |s| == |prefix| + 1 {
        assert t == prefix;
      }
      StripsBelow(t, prefix);
    }
  }

  /** A guest path is a root alone, or names below one that lead down, with no slash behind. */
  lemma {:induction false} GuestPathIs(s: string)
    ensures IsGuestPath(s) <==> s == "/" || s == "//" || exists w :: LeadsDown(w) && s == Text(w)
  {
    assert Root("/") == "/" && Root("//") == "//";
    RootsHaveNoParts();
    forall w | LeadsDown(w) && s == Text(w) ensures IsGuestPath(s) {
      SpelledComponents(w);
      SpelledNormal(w);
      assert Slashes(0) == "";
      hide Components, Join;
    }
    if IsGuestPath(s) && s != "/" && s != "//" {
      PiecesPlain(s);
      NamedArePlain(Split(s));
      var w := Spelling(Root(s) == "//", Components(s), 0);
      assert Slashes(0) == "";
      assert LeadsDown(w) && s == Text(w);
    }
  }

  predicate LeadsDown(w: Spelling) {
    w.parts != [] && PlainNames(w.parts) && ".." !in w.parts && w.trailing == 0
  }

  lemma {:induction false} RootsHaveNoParts()
    ensures Components("/") == [] && Components("//") == []
  {
    assert Split("") == [""] && "/"[1..] == "" && "//"[1..] == "/";
    assert Split("/") == ["", ""] && Split("//") == ["", "", ""];
    assert ["", "", ""][1..] == ["", ""] && ["", ""][1..] == [""] && [""][1..] == [];
    assert Named([""]) == [] && Named(["", ""]) == [] && Named([]) == [];
  }

  // ----- modes and whole decisions -----

  /** Three octal digits. */
  datatype Digits = Digits(user: nat, group: nat, other: nat)

  predicate OctalDigits(d: Digits) {
    d.user < 8 && d.group < 8 && d.other < 8
  }

  function Digit(n: nat): char
    requires n < 8
  {
    "01234567"[n]
  }

  function ModeText(d: Digits): string
    requires OctalDigits(d)
  {
    [Digit(d.user), Digit(d.group), Digit(d.other)]
  }

  function ModeBits(d: Digits): nat {
    64 * d.user + 8 * d.group + d.other
  }

  lemma {:induction false} DigitValue(n: nat)
    requires n < 8
    ensures Octal(Digit(n)) && Digit(n) as int - '0' as int == n
  {
  }

  /** A mode is read when it is three octal digits, or a zero and three, and as their value. */
  lemma {:induction false} ModeExactly(mode: Option<string>)
    ensures ParseMode(mode).Ok? <==> exists d :: SpellsMode(mode, d)
    ensures forall d | SpellsMode(mode, d) :: ParseMode(mode) == Ok(ModeBits(d))
  {
    forall d | SpellsMode(mode, d) ensures ParseMode(mode) == Ok(ModeBits(d)) {
      SpelledMode(mode, d);
    }
    if ParseMode(mode).Ok? {
      var digits := if |mode.value| == 4 && mode.value[0] == '0' then mode.value[1..] else mode.value;
      var d := Digits(digits[0] as int - '0' as int, digits[1] as int - '0' as int, digits[2] as int - '0' as int);
      DigitBack(digits[0]);
      DigitBack(digits[1]);
      DigitBack(digits[2]);
      assert digits == ModeText(d);
      assert mode.value == digits || mode.value == "0" + digits;
      assert SpellsMode(mode, d);
    }
  }

  predicate SpellsMode(mode: Option<string>, d: Digits) {
    OctalDigits(d) && mode.Some? && (mode.value == ModeText(d) || mode.value == "0" + ModeText(d))
  }

  lemma {:induction false} SpelledMode(mode: Option<string>, d: Digits)
    requires SpellsMode(mode, d)
    ensures ParseMode(mode) == Ok(ModeBits(d))
  {
    DigitValue(d.user);
    DigitValue(d.group);
    DigitValue(d.other);
    assert ("0" + ModeText(d))[1..] == ModeText(d);
  }

  lemma {:induction false} DigitBack(c: char)
    requires Octal(c)
    ensures 0 <= c as int - '0' as int < 8 && Digit(c as int - '0' as int) == c
  {
  }

  /** A selected decision is taken up exactly when it is an automatic directory with parents, on a sound path, with a mode. */
  lemma {:induction false} ShapeExactly(d: Decision)
    ensures Shape(d).Ok? <==>
              && d.disposition == AutoCandidate && d.action == CreateDirectory && d.parents
              && (exists w :: Sound(w) && d.resource == Text(w)) && (exists m :: SpellsMode(d.mode, m))
    ensures forall w, m | Shape(d).Ok? && Sound(w) && d.resource == Text(w) && SpellsMode(d.mode, m) ::
              Shape(d) == Ok((w.parts, ModeBits(m)))
  {
    AcceptedExactly(d.resource);
    ModeExactly(d.mode);
    hide GuestPath, ParseMode, Sound, Text, SpellsMode;
  }
}
