/** A printer for the plist files kernel/kconf.c reads, and the proof that reading gives back what was printed. */
module KconfPrint {
  import opened Prelude
  import opened Kconf

  function EscapeChar(c: char): string {
    if c == '&' then "&amp;"
    else if c == '<' then "&lt;"
    else if c == '>' then "&gt;"
    else if c == '"' then "&quot;"
    else if c == '\'' then "&apos;"
    else [c]
  }

  function Escape(s: string): string {
    if s == "" then "" else EscapeChar(s[0]) + Escape(s[1..])
  }

  /** What may stand between a key and its value. */
  datatype Filler = Blank(c: char) | Comment(text: string)

  /** What may stand before a key: also declarations and tags other than an open `key`. */
  datatype Piece = Gap(filler: Filler) | Decl(body: string) | Open(name: string, attrs: string) | Close(name: string)

  function FillerText(f: Filler): string {
    match f
    case Blank(c) => [c]
    case Comment(text) => "<!--" + text + "-->"
  }

  function FillersText(fs: seq<Filler>): string {
    if fs == [] then "" else FillerText(fs[0]) + FillersText(fs[1..])
  }

  function PieceText(p: Piece): string {
    match p
    case Gap(f) => FillerText(f)
    case Decl(body) => "<" + body + ">"
    case Open(name, attrs) => "<" + name + attrs + ">"
    case Close(name) => "</" + name + ">"
  }

  function PiecesText(ps: seq<Piece>): string {
    if ps == [] then "" else PieceText(ps[0]) + PiecesText(ps[1..])
  }

  datatype Line = Line(before: seq<Piece>, between: seq<Filler>, setting: Setting)

  function ValueText(x: Setting): string {
    match x
    case Malformed => ""
    case Text(_, v) => "<string>" + Escape(v) + "</string>"
    case Integer(_, v) => "<integer>" + Escape(v) + "</integer>"
    case Boolean(_, on) => if on then "<true/>" else "<false/>"
  }

  function KeyOf(x: Setting): string {
    if x.Malformed? then "" else x.key
  }

  function LineText(l: Line): string {
    PiecesText(l.before)
      + ("<key>" + Escape(KeyOf(l.setting)) + "</key>" + FillersText(l.between) + ValueText(l.setting))
  }

  /** A file: its settings, each with what stands before it, and what stands at the end. */
  function FileText(ls: seq<Line>, tail: seq<Piece>): string {
    if ls == [] then PiecesText(tail) else LineText(ls[0]) + FileText(ls[1..], tail)
  }

  // ---- what a printer may print ----

  ghost predicate NoneBefore(a: string, b: string, lit: string) {
    forall j :: 0 <= j < |a| ==> !StartsWith((a + b)[j..], lit)
  }

  ghost predicate SoundFiller(f: Filler) {
    match f
    case Blank(c) => IsBlank(c)
    case Comment(text) => NoneBefore(text, "-->", "-->")
  }

  ghost predicate SoundFillers(fs: seq<Filler>) {
    forall i :: 0 <= i < |fs| ==> SoundFiller(fs[i])
  }

  /** A name that is read as it stands. */
  ghost predicate SoundName(n: string) {
    n != "" && |n| < TAG_MAX && n[0] != '?' && n[0] != '!' && forall i :: 0 <= i < |n| ==>
      !EndsName(n[i]) && n[i] != '\0'
  }

  ghost predicate SoundPiece(p: Piece) {
    match p
    case Gap(f) => SoundFiller(f)
    case Decl(body) => body != "" && (body[0] == '?' || body[0] == '!') && '>' !in body
      && !StartsWith(body + ">", "!--")
    case Open(name, attrs) => SoundName(name) && name != "key" && (attrs != "" ==> EndsName(attrs[0])) && '>' !in attrs
    case Close(name) => '>' !in name
  }

  ghost predicate SoundPieces(ps: seq<Piece>) {
    forall i :: 0 <= i < |ps| ==> SoundPiece(ps[i])
  }

  /** A setting that fits the kernel's buffers. */
  ghost predicate InBound(x: Setting) {
    !x.Malformed? && |Escape(x.key)| < KEY_SIZE && (x.Text? || x.Integer? ==> |x.value| < VALUE_SIZE)
  }

  ghost predicate SoundLine(l: Line) {
    SoundPieces(l.before) && SoundFillers(l.between) && InBound(l.setting)
  }

  // ---- finding things ----

  lemma {:induction false} DropToFirst(a: string, b: string, lit: string)
    requires lit != "" && StartsWith(b, lit) && NoneBefore(a, b, lit)
    ensures DropTo(a + b, lit) == Some(b)
  {
    if a == "" {
      assert a + b == b;
    } else {
      assert !StartsWith((a + b)[0..], lit) && (a + b)[0..] == a + b;
      assert (a + b)[1..] == a[1..] + b;
      forall j | 0 <= j < |a[1..]| ensures !StartsWith((a[1..] + b)[j..], lit) {
        assert (a + b)[j + 1..] == (a[1..] + b)[j..];
      }
      DropToFirst(a[1..], b, lit);
    }
  }

  lemma StartsAlike(s: string, lit: string)
    requires lit != ""
    ensures StartsWith(s, lit) ==> s[0] == lit[0]
  {
    if StartsWith(s, lit) {
      assert s[..|lit|][0] == s[0];
    }
  }

  lemma AbsentBefore(a: string, b: string, lit: string)
    requires lit != "" && lit[0] !in a
    ensures NoneBefore(a, b, lit)
  {
    forall j | 0 <= j < |a| ensures !StartsWith((a + b)[j..], lit) {
      assert (a + b)[j..][0] == a[j];
      assert a[j] in a;
      StartsAlike((a + b)[j..], lit);
    }
  }

  lemma DropToAbsent(a: string, b: string, lit: string)
    requires lit != "" && StartsWith(b, lit) && lit[0] !in a
    ensures DropTo(a + b, lit) == Some(b)
  {
    AbsentBefore(a, b, lit);
    DropToFirst(a, b, lit);
  }

  // ---- escapes ----

  lemma {:induction false} EscapeClean(s: string)
    ensures '<' !in Escape(s)
  {
    if s != "" {
      EscapeClean(s[1..]);
      assert '<' !in EscapeChar(s[0]);
    }
  }

  lemma DecodeEntity(name: string, c: char, t: string)
    requires ';' !in name && EntityChar(name) == Some(c)
    ensures Decode("&" + name + ";" + t) == if Decode(t).None? then None else Some([c] + Decode(t).value)
  {
    var s := "&" + name + ";" + t;
    var e := ";" + t;
    assert s[1..] == name + e;
    assert StartsWith(e, ";");
    DropToAbsent(name, e, ";");
    assert s[1..|s| - |e|] == name;
    assert e[1..] == t;
  }

  lemma DecodeChar(c: char, t: string)
    ensures Decode(EscapeChar(c) + t) == if Decode(t).None? then None else Some([c] + Decode(t).value)
  {
    if c == '&' {
      NamedEntity("amp", "&amp;", c, t);
    } else if c == '<' {
      NamedEntity("lt", "&lt;", c, t);
    } else if c == '>' {
      NamedEntity("gt", "&gt;", c, t);
    } else if c == '"' {
      NamedEntity("quot", "&quot;", c, t);
    } else if c == '\'' {
      NamedEntity("apos", "&apos;", c, t);
    } else {
      assert ([c] + t)[1..] == t;
    }
  }

  lemma NamedEntity(name: string, text: string, c: char, t: string)
    requires ';' !in name && EntityChar(name) == Some(c) && text == "&" + name + ";"
    ensures Decode(text + t) == if Decode(t).None? then None else Some([c] + Decode(t).value)
  {
    hide EntityChar;
    hide Decode;
    DecodeEntity(name, c, t);
    assert "&" + name + ";" + t == text + t;
  }

  /** Decoding undoes escaping. */
  lemma {:induction false} DecodeEscape(s: string)
    ensures Decode(Escape(s)) == Some(s)
  {
    if s != "" {
      DecodeEscape(s[1..]);
      DecodeChar(s[0], Escape(s[1..]));
      assert [s[0]] + s[1..] == s;
    }
  }

  // ---- fillers ----

  lemma SkipFiller(f: Filler, t: string)
    requires SoundFiller(f)
    ensures Skip(FillerText(f) + t) == Skip(t)
  {
    match f
    case Blank(c) =>
      assert ([c] + t)[1..] == t;
      assert SkipBlanks([c] + t) == SkipBlanks(t);
    case Comment(text) =>
      var s := FillerText(f) + t;
      var b := "-->" + t;
      assert s[4..] == text + b;
      assert StartsWith(s, "<!--");
      assert SkipBlanks(s) == s;
      forall j | 0 <= j < |text| ensures !StartsWith((text + b)[j..], "-->") {
        CommentEnd(text, t, j);
      }
      DropToFirst(text, b, "-->");
      assert b[3..] == t;
  }

  /** What ends a comment does not depend on what follows it. */
  lemma CommentEnd(text: string, t: string, j: nat)
    requires j < |text| && !StartsWith((text + "-->")[j..], "-->")
    ensures !StartsWith((text + ("-->" + t))[j..], "-->")
  {
    var a, b := (text + "-->")[j..], (text + ("-->" + t))[j..];
    assert b == a + t;
    assert |a| >= 3;
    assert b[..3] == a[..3];
  }

  lemma {:induction false} SkipFillers(fs: seq<Filler>, t: string)
    requires SoundFillers(fs)
    ensures Skip(FillersText(fs) + t) == Skip(t)
  {
    if fs == [] {
      assert FillersText(fs) + t == t;
    } else {
      assert FillersText(fs) + t == FillerText(fs[0]) + (FillersText(fs[1..]) + t);
      SkipFiller(fs[0], FillersText(fs[1..]) + t);
      SkipFillers(fs[1..], t);
    }
  }

  lemma SkipTag(s: string)
    requires |s| > 1 && s[0] == '<' && !StartsWith(s, "<!--")
    ensures Skip(s) == s
  {
  }

  // ---- tags ----

  lemma {:induction false} NamePartIs(n: string, t: string)
    requires (forall i :: 0 <= i < |n| ==> !EndsName(n[i])) && t != "" && EndsName(t[0])
    ensures NamePart(n + t) == n
  {
    if n == "" {
      assert n + t == t;
    } else {
      assert (n + t)[1..] == n[1..] + t;
      NamePartIs(n[1..], t);
    }
  }

  lemma {:induction false} CStringIs(n: string)
    requires forall i :: 0 <= i < |n| ==> n[i] != '\0'
    ensures CString(n) == n
  {
    if n != "" {
      CStringIs(n[1..]);
    }
  }

  lemma ReadOpen(n: string, a: string, t: string)
    requires SoundName(n) && (a != "" ==> EndsName(a[0])) && '>' !in a
    ensures ReadTag("<" + n + a + ">" + t) == Some(Tag(n, false, a != "" && a[|a| - 1] == '/', t))
  {
    var s, u := "<" + n + a + ">" + t, ">" + t;
    assert s[1..] == n + (a + u);
    assert s[1] == n[0] && !EndsName(n[0]);
    assert (a + u)[0] == if a == "" then '>' else a[0];
    NamePartIs(n, a + u);
    assert s[1..][|n|..] == a + u;
    assert StartsWith(u, ">");
    DropToAbsent(a, u, ">");
    CStringIs(n);
    assert s[|s| - |u| - 1] == if a == "" then n[|n| - 1] else a[|a| - 1];
    assert u[1..] == t;
  }

  lemma {:induction false} NamePartShort(n: string, t: string)
    requires t != "" && EndsName(t[0])
    ensures |NamePart(n + t)| <= |n|
  {
    if n == "" {
      assert n + t == t;
    } else {
      assert (n + t)[1..] == n[1..] + t;
      NamePartShort(n[1..], t);
    }
  }

  lemma ReadClose(n: string, t: string)
    requires '>' !in n
    ensures ReadTag("</" + n + ">" + t).Some?
    ensures var tag := ReadTag("</" + n + ">" + t).value; tag.isClose && tag.rest == t
  {
    var s, u := "</" + n + ">" + t, ">" + t;
    assert s[2..] == n + u;
    NamePartShort(n, u);
    var raw := NamePart(n + u);
    assert (n + u)[|raw|..] == n[|raw|..] + u;
    assert StartsWith(u, ">");
    assert '>' !in n[|raw|..];
    DropToAbsent(n[|raw|..], u, ">");
    assert u[1..] == t;
  }

  lemma ReadDecl(b: string, t: string)
    requires b != "" && (b[0] == '?' || b[0] == '!') && '>' !in b
    ensures ReadTag("<" + b + ">" + t).Some?
    ensures var tag := ReadTag("<" + b + ">" + t).value; !tag.isClose && tag.name == "" && tag.rest == t
  {
    var s, u := "<" + b + ">" + t, ">" + t;
    assert s[1..] == b + u;
    assert s[1] == b[0];
    assert StartsWith(u, ">");
    assert (b + u)[0..] == b + u;
    DropToAbsent(b, u, ">");
    assert u[1..] == t;
  }

  // ---- pieces ----

  lemma NotComment(s: string, c: char)
    requires |s| > 1 && s[1] == c && c != '!'
    ensures !StartsWith(s, "<!--")
  {
    CommentStart(s);
  }

  lemma CommentStart(s: string)
    requires |s| > 1
    ensures StartsWith(s, "<!--") ==> s[1] == '!'
  {
    if StartsWith(s, "<!--") {
      assert s[..4][1] == s[1];
    }
  }

  lemma DeclIsNoComment(b: string, t: string)
    requires b != "" && !StartsWith(b + ">", "!--")
    ensures !StartsWith("<" + b + ">" + t, "<!--")
  {
    var s := "<" + b + ">" + t;
    assert s[1..] == (b + ">") + t;
    if |b| == 1 {
      assert s[2] == '>';
      assert "<!--"[2] == '-';
    } else {
      assert s[1..4] == (b + ">")[..3];
      assert "<!--"[1..4] == "!--";
    }
  }

  /** A piece before a key is passed over. */
  lemma PiecePassed(p: Piece, t: string)
    requires SoundPiece(p)
    ensures NextKey(PieceText(p) + t) == NextKey(t)
  {
    hide ReadTag;
    hide Skip;
    hide CString;
    var s := PieceText(p) + t;
    match p
    case Gap(f) =>
      SkipFiller(f, t);
    case Decl(b) =>
      DeclIsNoComment(b, t);
      SkipTag(s);
      ReadDecl(b, t);
    case Open(n, a) =>
      NotComment(s, n[0]);
      SkipTag(s);
      ReadOpen(n, a, t);
    case Close(n) =>
      NotComment(s, '/');
      SkipTag(s);
      ReadClose(n, t);
  }

  lemma {:induction false} PiecesPassed(ps: seq<Piece>, t: string)
    requires SoundPieces(ps)
    ensures NextKey(PiecesText(ps) + t) == NextKey(t)
  {
    if ps == [] {
      assert PiecesText(ps) + t == t;
    } else {
      assert PiecesText(ps) + t == PieceText(ps[0]) + (PiecesText(ps[1..]) + t);
      PiecePassed(ps[0], PiecesText(ps[1..]) + t);
      PiecesPassed(ps[1..], t);
    }
  }

  // ---- settings ----

  lemma ReadPlain(n: string, open: string, t: string)
    requires SoundName(n) && open == "<" + n + ">"
    ensures ReadTag(open + t) == Some(Tag(n, false, false, t))
  {
    hide ReadTag;
    hide SoundName;
    ReadOpen(n, "", t);
    assert "<" + n + "" + ">" + t == open + t;
  }

  /** An element with escaped text in it, taken apart. */
  lemma ElementRead(name: string, open: string, v: string, close: string, t: string)
    requires SoundName(name) && open == "<" + name + ">" && close == "</" + name + ">"
    ensures var s, r := open + Escape(v) + close + t, Escape(v) + (close + t);
      && Skip(s) == s && s != "" && s[0] == '<' && ReadTag(s) == Some(Tag(name, false, false, r))
      && DropTo(r, close) == Some(close + t) && r[..|r| - |close + t|] == Escape(v) && (close + t)[|close|..] == t
  {
    hide ReadTag;
    hide Skip;
    hide DropTo;
    hide Escape;
    var s, r := open + Escape(v) + close + t, Escape(v) + (close + t);
    assert s == open + r;
    assert s[0] == '<' && s[1] == name[0];
    ReadPlain(name, open, r);
    ValueSkipped(s, name[0]);
    EscapeClean(v);
    assert StartsWith(close + t, close);
    DropToAbsent(Escape(v), close + t, close);
    Taken(Escape(v), close, t);
  }

  lemma ValueRead(x: Setting, t: string)
    requires InBound(x)
    ensures NextValue(ValueText(x) + t, x.key) == Got(x, t)
  {
    match x
    case Text(k, v) =>
      TextValue(k, v, t);
    case Integer(k, v) =>
      IntegerValue(k, v, t);
    case Boolean(k, on) =>
      BooleanValue(k, on, t);
  }

  /** The reader's arm for text, on whatever it is given. */
  lemma TextArm(s: string, k: string, r: string, c: string, v: string)
    requires Skip(s) == s && s != "" && s[0] == '<' && ReadTag(s) == Some(Tag("string", false, false, r))
    requires DropTo(r, "</string>") == Some(c) && Decode(r[..|r| - |c|]) == Some(v) && |v| < VALUE_SIZE
    ensures NextValue(s, k) == Got(Text(k, v), c[9..])
  {
    hide ReadTag;
    hide Skip;
    hide Decode;
    hide DropTo;
    hide SkipElement;
  }

  lemma IntegerArm(s: string, k: string, r: string, c: string, v: string)
    requires Skip(s) == s && s != "" && s[0] == '<' && ReadTag(s) == Some(Tag("integer", false, false, r))
    requires DropTo(r, "</integer>") == Some(c) && Decode(r[..|r| - |c|]) == Some(v) && |v| < VALUE_SIZE
    ensures NextValue(s, k) == Got(Integer(k, v), c[10..])
  {
    hide ReadTag;
    hide Skip;
    hide Decode;
    hide DropTo;
    hide SkipElement;
  }

  lemma StringTags()
    ensures SoundName("string") && "<string>" == "<" + "string" + ">" && "</string>" == "</" + "string" + ">"
  {
  }

  lemma IntegerTags()
    ensures SoundName("integer") && "<integer>" == "<" + "integer" + ">" && "</integer>" == "</" + "integer" + ">"
  {
  }

  lemma TextValue(k: string, v: string, t: string)
    requires |v| < VALUE_SIZE
    ensures NextValue("<string>" + Escape(v) + "</string>" + t, k) == Got(Text(k, v), t)
  {
    hide ReadTag;
    hide Skip;
    hide Decode;
    hide Escape;
    hide DropTo;
    hide NextValue;
    hide SoundName;
    StringTags();
    ElementRead("string", "<string>", v, "</string>", t);
    DecodeEscape(v);
    TextArm("<string>" + Escape(v) + "</string>" + t, k, Escape(v) + ("</string>" + t), "</string>" + t, v);
  }

  lemma IntegerValue(k: string, v: string, t: string)
    requires |v| < VALUE_SIZE
    ensures NextValue("<integer>" + Escape(v) + "</integer>" + t, k) == Got(Integer(k, v), t)
  {
    hide ReadTag;
    hide Skip;
    hide Decode;
    hide Escape;
    hide DropTo;
    hide NextValue;
    hide SoundName;
    IntegerTags();
    ElementRead("integer", "<integer>", v, "</integer>", t);
    DecodeEscape(v);
    IntegerArm("<integer>" + Escape(v) + "</integer>" + t, k, Escape(v) + ("</integer>" + t), "</integer>" + t, v);
  }

  lemma BooleanValue(k: string, on: bool, t: string)
    ensures NextValue((if on then "<true/>" else "<false/>") + t, k) == Got(Boolean(k, on), t)
  {
    hide ReadTag;
    hide Skip;
    hide Decode;
    hide DropTo;
    hide SkipElement;
    if on {
      assert "<true/>" + t == "<" + "true" + "/" + ">" + t;
      ReadOpen("true", "/", t);
      ValueSkipped("<true/>" + t, 't');
    } else {
      assert "<false/>" + t == "<" + "false" + "/" + ">" + t;
      ReadOpen("false", "/", t);
      ValueSkipped("<false/>" + t, 'f');
    }
  }

  lemma ValueSkipped(s: string, c: char)
    requires |s| > 1 && s[0] == '<' && s[1] == c && c != '!'
    ensures Skip(s) == s
  {
    NotComment(s, c);
    SkipTag(s);
  }

  lemma Taken(a: string, close: string, t: string)
    ensures (a + (close + t))[..|a + (close + t)| - |close + t|] == a && (close + t)[|close|..] == t
  {
  }

  /** One printed setting is read back, and reading stops right behind it. */
  lemma LineRead(l: Line, t: string)
    requires SoundLine(l)
    ensures Next(LineText(l) + t) == Got(l.setting, t)
  {
    hide NextKey;
    hide NextValue;
    hide Decode;
    hide Escape;
    hide DropTo;
    hide FillersText;
    hide PiecesText;
    hide ValueText;
    var x := l.setting;
    var after := FillersText(l.between) + (ValueText(x) + t);
    var body := Escape(x.key) + ("</key>" + after);
    assert LineText(l) + t == PiecesText(l.before) + ("<key>" + body);
    PiecesPassed(l.before, "<key>" + body);
    KeyFound(body);
    EscapeClean(x.key);
    assert StartsWith("</key>" + after, "</key>");
    DropToAbsent(Escape(x.key), "</key>" + after, "</key>");
    Taken(Escape(x.key), "</key>", after);
    DecodeEscape(x.key);
    EscapeLonger(x.key);
    FillersThenValue(l.between, x, t);
  }

  lemma KeyFound(body: string)
    ensures NextKey("<key>" + body) == Some(body)
  {
    hide ReadTag;
    hide Skip;
    var s := "<key>" + body;
    assert s == "<" + "key" + "" + ">" + body;
    ReadOpen("key", "", body);
    ValueSkipped(s, 'k');
  }

  lemma {:induction false} EscapeLonger(s: string)
    ensures |s| <= |Escape(s)|
  {
    if s != "" {
      EscapeLonger(s[1..]);
    }
  }

  lemma FillersThenValue(fs: seq<Filler>, x: Setting, t: string)
    requires SoundFillers(fs) && InBound(x)
    ensures NextValue(FillersText(fs) + (ValueText(x) + t), x.key) == Got(x, t)
  {
    hide Skip;
    hide ReadTag;
    hide Decode;
    hide DropTo;
    hide SkipElement;
    hide Escape;
    hide ValueText;
    hide FillersText;
    ValueRead(x, t);
    SkipFillers(fs, ValueText(x) + t);
  }

  function Settings(ls: seq<Line>): seq<Setting> {
    if ls == [] then [] else [ls[0].setting] + Settings(ls[1..])
  }

  lemma NextOfEmpty()
    ensures Next("") == End
  {
  }

  /** Reading a printed file gives exactly its settings, in order, and then the end. */
  lemma {:induction false} RoundTrip(ls: seq<Line>, tail: seq<Piece>)
    requires (forall i :: 0 <= i < |ls| ==> SoundLine(ls[i])) && SoundPieces(tail)
    ensures All(FileText(ls, tail)) == Settings(ls)
  {
    if ls == [] {
      PiecesPassed(tail, "");
      assert PiecesText(tail) + "" == PiecesText(tail);
      NextOfEmpty();
    } else {
      hide Next;
      hide LineText;
      RoundTrip(ls[1..], tail);
      LineRead(ls[0], FileText(ls[1..], tail));
    }
  }
}
