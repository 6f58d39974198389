/** The plist reader of kernel/kconf.c, as functions on the text that is still to be read. */
module Kconf {
  import opened Prelude

  const KEY_SIZE := 128
  const VALUE_SIZE := 256
  const TAG_MAX := 16

  predicate IsBlank(c: char) {
    c == ' ' || c == '\t' || c == '\r' || c == '\n'
  }

  predicate StartsWith(s: string, lit: string) {
    |lit| <= |s| && s[..|lit|] == lit
  }

  /** The first place where `lit` stands, and all behind it. */
  function DropTo(s: string, lit: string): (r: Option<string>)
    ensures r.Some? ==> |r.value| <= |s| && StartsWith(r.value, lit)
  {
    if s == "" then None else if StartsWith(s, lit) then Some(s) else DropTo(s[1..], lit)
  }

  function SkipBlanks(s: string): (r: string)
    ensures |r| <= |s|
  {
    if s != "" && IsBlank(s[0]) then SkipBlanks(s[1..]) else s
  }

  /** Blanks and comments; a comment that does not end runs to the end of the text. */
  function Skip(s: string): (r: string)
    ensures |r| <= |s|
    decreases |s|
  {
    var t := SkipBlanks(s);
    if !StartsWith(t, "<!--") then t
    else
      var u := DropTo(t[4..], "-->");
      if u.None? then "" else Skip(u.value[3..])
  }

  predicate EndsName(c: char) {
    c == '>' || c == '/' || IsBlank(c)
  }

  function NamePart(s: string): (n: string)
    ensures |n| <= |s|
  {
    if s == "" || EndsName(s[0]) then "" else [s[0]] + NamePart(s[1..])
  }

  /** A buffer of 16 characters, read as a C string. */
  function CString(s: string): string {
    if s == "" || s[0] == '\0' then "" else [s[0]] + CString(s[1..])
  }

  function Bounded(s: string, n: nat): string {
    if |s| <= n then s else s[..n]
  }

  /** A tag: its name, whether it closes an element or itself, and what follows it. */
  datatype Tag = Tag(name: string, isClose: bool, isEmpty: bool, rest: string)

  function ReadTag(s: string): (r: Option<Tag>)
    requires s != "" && s[0] == '<'
    ensures r.Some? ==> |r.value.rest| < |s|
  {
    var isClose := |s| > 1 && s[1] == '/';
    var t := if isClose then s[2..] else s[1..];
    var named := isClose || (t != "" && t[0] != '?' && t[0] != '!');
    var raw := if named then NamePart(t) else "";
    var u := DropTo(t[|raw|..], ">");
    if u.None? then None
    else
      var before := s[|s| - |u.value| - 1];
      Some(Tag(CString(Bounded(raw, TAG_MAX - 1)), isClose, before == '/', u.value[1..]))
  }

  // ---- text and entities ----

  function HexVal(c: char): int {
    if '0' <= c <= '9' then c as int - '0' as int
    else if 'a' <= c <= 'f' then c as int - 'a' as int + 10
    else if 'A' <= c <= 'F' then c as int - 'A' as int + 10
    else -1
  }

  /** The value of digits, or -1 when one is none. */
  function Digits(s: string, base: int): int
    requires base == 10 || base == 16
  {
    if s == "" then 0
    else
      var n, d := Digits(s[..|s| - 1], base), HexVal(s[|s| - 1]);
      if n < 0 || d < 0 || d >= base then -1 else n * base + d
  }

  /** The character that an entity stands for. */
  function EntityChar(name: string): Option<char> {
    if name == "amp" then Some('&')
    else if name == "lt" then Some('<')
    else if name == "gt" then Some('>')
    else if name == "quot" then Some('"')
    else if name == "apos" then Some('\'')
    else if |name| >= 2 && name[0] == '#' then
      var hex := name[1] == 'x' || name[1] == 'X';
      var digits := if hex then name[2..] else name[1..];
      var value := Digits(digits, if hex then 16 else 10);
      if digits != "" && 0 < value < 0x80 then Some(value as char) else None
    else None
  }

  /** Text with its entities resolved; none when one cannot be. */
  function Decode(s: string): Option<string>
    decreases |s|
  {
    if s == "" then Some("")
    else if s[0] != '&' then
      var r := Decode(s[1..]);
      if r.None? then None else Some([s[0]] + r.value)
    else
      var e := DropTo(s[1..], ";");
      if e.None? then None
      else
        var c := EntityChar(s[1..|s| - |e.value|]);
        var r := Decode(e.value[1..]);
        if c.None? || r.None? then None else Some([c.value] + r.value)
  }

  // ---- settings ----

  datatype Setting =
    | Malformed
    | Text(key: string, value: string)
    | Integer(key: string, value: string)
    | Boolean(key: string, on: bool)

  /** One step: a setting and the text behind it, or the end. */
  datatype Step = End | Got(setting: Setting, rest: string)

  /** The text behind the next open `key` tag. */
  function NextKey(s: string): (r: Option<string>)
    ensures r.Some? ==> |r.value| < |s|
    decreases |s|
  {
    var t := Skip(s);
    if t == "" then None
    else if t[0] != '<' then NextKey(t[1..])
    else
      var tag := ReadTag(t);
      if tag.None? then None
      else if !tag.value.isClose && tag.value.name == "key" then Some(tag.value.rest)
      else NextKey(tag.value.rest)
  }

  /** Past the end of an element, counting elements of the same name inside it. */
  function SkipElement(s: string, name: string, depth: nat): (r: string)
    ensures |r| <= |s|
    decreases |s|
  {
    if depth == 0 then s
    else
      var t := DropTo(s, "<");
      if t.None? then ""
      else
        var tag := ReadTag(t.value);
        if tag.None? then ""
        else
          var d := if tag.value.name != name then depth
                   else if tag.value.isClose then depth - 1
                   else if !tag.value.isEmpty then depth + 1 else depth;
          SkipElement(tag.value.rest, name, d)
  }

  /** The value element behind a key. */
  function NextValue(s: string, key: string): (r: Step)
    ensures r.Got? ==> |r.rest| <= |s|
  {
    var t := Skip(s);
    if t == "" then End
    else if t[0] != '<' then Got(Malformed, t)
    else
      var tag := ReadTag(t);
      if tag.None? then End
      else if tag.value.isClose then Got(Malformed, tag.value.rest)
      else if tag.value.name == "string" || tag.value.name == "integer" then
        var close := if tag.value.name == "integer" then "</integer>" else "</string>";
        var e := DropTo(tag.value.rest, close);
        if e.None? then Got(Malformed, "")
        else
          var text := Decode(tag.value.rest[..|tag.value.rest| - |e.value|]);
          var rest := e.value[|close|..];
          if text.None? then Got(Malformed, rest)
          else
            var v := Bounded(text.value, VALUE_SIZE - 1);
            Got(if tag.value.name == "integer" then Integer(key, v) else Text(key, v), rest)
      else if tag.value.name == "true" || tag.value.name == "false" then
        Got(Boolean(key, tag.value.name == "true"), tag.value.rest)
      else Got(Malformed, SkipElement(tag.value.rest, tag.value.name, if tag.value.isEmpty then 0 else 1))
  }

  /** kconf_next() */
  function Next(s: string): (r: Step)
    ensures r.Got? ==> |r.rest| < |s|
  {
    var k := NextKey(s);
    if k.None? then End
    else
      var e := DropTo(k.value, "</key>");
      if e.None? then End
      else
        var raw := k.value[..|k.value| - |e.value|];
        var rest := e.value[6..];
        var key := Decode(raw);
        if |raw| >= KEY_SIZE || key.None? then Got(Malformed, rest)
        else NextValue(rest, Bounded(key.value, KEY_SIZE - 1))
  }

  /** All settings of a text, in order. */
  function All(s: string): seq<Setting>
    decreases |s|
  {
    var r := Next(s);
    if r.End? then [] else [r.setting] + All(r.rest)
  }

  // ---- what is left to read is always an end of what there was ----

  ghost predicate Suffix(r: string, s: string) {
    |r| <= |s| && r == s[|s| - |r|..]
  }

  lemma SuffixThen(r: string, s: string, t: string)
    requires Suffix(r, s) && Suffix(s, t)
    ensures Suffix(r, t)
  {
  }

  lemma SuffixDrop(r: string, s: string, n: nat)
    requires Suffix(r, s) && n <= |r|
    ensures Suffix(r[n..], s)
  {
  }

  lemma {:induction false} DropToSuffix(s: string, lit: string)
    ensures DropTo(s, lit).Some? ==> Suffix(DropTo(s, lit).value, s)
  {
    if s != "" && !StartsWith(s, lit) {
      DropToSuffix(s[1..], lit);
      if DropTo(s, lit).Some? {
        assert Suffix(s[1..], s);
        SuffixThen(DropTo(s, lit).value, s[1..], s);
      }
    }
  }

  lemma {:induction false} SkipBlanksSuffix(s: string)
    ensures Suffix(SkipBlanks(s), s)
  {
    if s != "" && IsBlank(s[0]) {
      SkipBlanksSuffix(s[1..]);
      assert Suffix(s[1..], s);
      SuffixThen(SkipBlanks(s), s[1..], s);
    }
  }

  lemma {:induction false} SkipSuffix(s: string)
    ensures Suffix(Skip(s), s)
    decreases |s|
  {
    hide Suffix;
    var t := SkipBlanks(s);
    SkipBlanksSuffix(s);
    EmptySuffix(s);
    if StartsWith(t, "<!--") {
      DropToSuffix(t[4..], "-->");
      var u := DropTo(t[4..], "-->");
      if u.Some? {
        SuffixDrop(t, s, 4);
        SuffixDrop(u.value, t[4..], 3);
        SkipSuffix(u.value[3..]);
        SuffixThen(u.value[3..], t[4..], s);
        SuffixThen(Skip(s), u.value[3..], s);
      }
    }
  }

  lemma EmptySuffix(s: string)
    ensures Suffix("", s) && Suffix(s, s)
  {
  }

  lemma ReadTagSuffix(s: string)
    requires s != "" && s[0] == '<'
    ensures ReadTag(s).Some? ==> Suffix(ReadTag(s).value.rest, s)
  {
    hide Suffix;
    hide DropTo;
    hide NamePart;
    hide CString;
    hide Bounded;
    EmptySuffix(s);
    var isClose := |s| > 1 && s[1] == '/';
    var t := if isClose then s[2..] else s[1..];
    SuffixDrop(s, s, if isClose then 2 else 1);
    var named := isClose || (t != "" && t[0] != '?' && t[0] != '!');
    var raw := if named then NamePart(t) else "";
    SuffixDrop(t, s, |raw|);
    var u := DropTo(t[|raw|..], ">");
    DropToSuffix(t[|raw|..], ">");
    if u.Some? {
      SuffixThen(u.value, t[|raw|..], s);
      SuffixDrop(u.value, s, 1);
    }
  }

  lemma {:induction false} NextKeySuffix(s: string)
    ensures NextKey(s).Some? ==> Suffix(NextKey(s).value, s)
    decreases |s|
  {
    hide Suffix;
    hide ReadTag;
    hide Skip;
    var t := Skip(s);
    SkipSuffix(s);
    if t != "" {
      if t[0] != '<' {
        SuffixDrop(t, s, 1);
        NextKeySuffix(t[1..]);
        if NextKey(s).Some? {
          SuffixThen(NextKey(s).value, t[1..], s);
        }
      } else {
        ReadTagSuffix(t);
        var tag := ReadTag(t);
        if tag.Some? {
          SuffixThen(tag.value.rest, t, s);
          NextKeySuffix(tag.value.rest);
          if NextKey(tag.value.rest).Some? {
            SuffixThen(NextKey(tag.value.rest).value, tag.value.rest, s);
          }
        }
      }
    }
  }

  lemma {:induction false} SkipElementSuffix(s: string, name: string, depth: nat)
    ensures Suffix(SkipElement(s, name, depth), s)
    decreases |s|
  {
    hide Suffix;
    hide ReadTag;
    EmptySuffix(s);
    if depth > 0 {
      DropToSuffix(s, "<");
      var t := DropTo(s, "<");
      if t.Some? {
        ReadTagSuffix(t.value);
        var tag := ReadTag(t.value);
        if tag.Some? {
          SuffixThen(tag.value.rest, t.value, s);
          var d := if tag.value.name != name then depth
                   else if tag.value.isClose then depth - 1
                   else if !tag.value.isEmpty then depth + 1 else depth;
          SkipElementSuffix(tag.value.rest, name, d);
          SuffixThen(SkipElement(tag.value.rest, name, d), tag.value.rest, s);
        }
      }
    }
  }

  lemma NextValueSuffix(s: string, key: string)
    ensures NextValue(s, key).Got? ==> Suffix(NextValue(s, key).rest, s)
  {
    hide Suffix;
    hide ReadTag;
    hide Skip;
    hide Decode;
    hide Bounded;
    hide SkipElement;
    hide DropTo;
    EmptySuffix(s);
    SkipSuffix(s);
    var t := Skip(s);
    if t != "" && t[0] == '<' && ReadTag(t).Some? {
      ReadTagSuffix(t);
      var tag := ReadTag(t).value;
      SuffixThen(tag.rest, t, s);
      if tag.name == "string" || tag.name == "integer" {
        var close := if tag.name == "integer" then "</integer>" else "</string>";
        DropToSuffix(tag.rest, close);
        var e := DropTo(tag.rest, close);
        if e.Some? {
          SuffixThen(e.value, tag.rest, s);
          SuffixDrop(e.value, s, |close|);
        }
      } else {
        SkipElementSuffix(tag.rest, tag.name, if tag.isEmpty then 0 else 1);
        SuffixThen(SkipElement(tag.rest, tag.name, if tag.isEmpty then 0 else 1), tag.rest, s);
      }
    }
  }

  /**
    * On any text whatever, a step that finds a setting leaves strictly less, and what it leaves is the end of what
    * there was.
    */
  lemma NextProgress(s: string)
    ensures Next(s).Got? ==> |Next(s).rest| < |s| && Suffix(Next(s).rest, s)
  {
    hide Suffix;
    hide NextKey;
    hide DropTo;
    hide Decode;
    hide Bounded;
    hide NextValue;
    NextKeySuffix(s);
    var k := NextKey(s);
    if k.Some? {
      DropToSuffix(k.value, "</key>");
      var e := DropTo(k.value, "</key>");
      if e.Some? {
        SuffixThen(e.value, k.value, s);
        SuffixDrop(e.value, s, 6);
        var key := Decode(k.value[..|k.value| - |e.value|]);
        if key.Some? {
          NextValueSuffix(e.value[6..], Bounded(key.value, KEY_SIZE - 1));
          if NextValue(e.value[6..], Bounded(key.value, KEY_SIZE - 1)).Got? {
            SuffixThen(NextValue(e.value[6..], Bounded(key.value, KEY_SIZE - 1)).rest, e.value[6..], s);
          }
        }
      }
    }
  }
}
