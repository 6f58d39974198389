/** kernel/kconf.c as it is: loops that move a cursor over the buffer. */
module KconfReader {
  import opened Prelude
  import opened Kconf

  /** The bounded match of a literal. */
  method PlistAt(data: string, pos: nat, lit: string) returns (yes: bool)
    requires pos <= |data|
    ensures yes <==> StartsWith(data[pos..], lit)
  {
    var i := 0;
    while i < |lit|
      invariant i <= |lit| && pos + i <= |data| && data[pos..pos + i] == lit[..i]
    {
      if pos + i >= |data| || data[pos + i] != lit[i] {
        Differs(data, pos, lit, i);
        return false;
      }
      assert data[pos..pos + i + 1] == data[pos..pos + i] + [data[pos + i]];
      assert lit[..i + 1] == lit[..i] + [lit[i]];
      i := i + 1;
    }
    assert lit[..i] == lit && data[pos..][..i] == data[pos..pos + i];
    return true;
  }

  lemma Differs(data: string, pos: nat, lit: string, i: nat)
    requires pos + i <= |data| && i < |lit| && (pos + i == |data| || data[pos + i] != lit[i])
    ensures !StartsWith(data[pos..], lit)
  {
    var s := data[pos..];
    assert |s| > i ==> s[i] == data[pos + i];
    if |lit| <= |s| {
      assert s[..|lit|][i] == s[i];
    }
  }

  /** Where a literal stands next; the end of the buffer when it does not. */
  ghost predicate Found(data: string, pos: nat, lit: string, e: nat) {
    pos <= e <= |data| && DropTo(data[pos..], lit) == if e < |data| then Some(data[e..]) else None
  }

  lemma FoundHere(data: string, pos: nat, lit: string)
    requires pos < |data| && StartsWith(data[pos..], lit)
    ensures Found(data, pos, lit, pos)
  {
  }

  lemma FoundLater(data: string, pos: nat, lit: string, e: nat)
    requires pos < |data| && !StartsWith(data[pos..], lit) && Found(data, pos + 1, lit, e)
    ensures Found(data, pos, lit, e)
  {
    assert data[pos..][1..] == data[pos + 1..];
  }

  lemma FoundNowhere(data: string, lit: string)
    ensures Found(data, |data|, lit, |data|)
  {
  }

  /** The walk to the end of a comment, or to a single character. */
  method Find(data: string, pos: nat, lit: string) returns (e: nat)
    requires pos <= |data|
    ensures Found(data, pos, lit, e)
  {
    e := pos;
    while e < |data|
      invariant pos <= e <= |data|
      invariant forall k :: Found(data, e, lit, k) ==> Found(data, pos, lit, k)
    {
      var yes := PlistAt(data, e, lit);
      if yes {
        FoundHere(data, e, lit);
        return;
      }
      forall k | Found(data, e + 1, lit, k) ensures Found(data, e, lit, k) {
        FoundLater(data, e, lit, k);
      }
      e := e + 1;
    }
    FoundNowhere(data, lit);
  }

  lemma NoLessThan(data: string, e: nat, close: string)
    requires e < |data| && data[e] != '<' && close != "" && close[0] == '<'
    ensures !StartsWith(data[e..], close)
  {
    assert data[e..][0] == data[e];
    if |close| <= |data[e..]| {
      assert data[e..][..|close|][0] == data[e];
    }
  }

  /** The walk to a close tag: from one `<` to the next. */
  method FindClose(data: string, pos: nat, close: string) returns (e: nat)
    requires pos <= |data| && close != "" && close[0] == '<'
    ensures Found(data, pos, close, e)
  {
    hide Found;
    e := pos;
    while true
      invariant pos <= e <= |data|
      invariant forall k :: Found(data, e, close, k) ==> Found(data, pos, close, k)
      decreases |data| - e
    {
      while e < |data| && data[e] != '<'
        invariant pos <= e <= |data|
        invariant forall k :: Found(data, e, close, k) ==> Found(data, pos, close, k)
      {
        NoLessThan(data, e, close);
        forall k | Found(data, e + 1, close, k) ensures Found(data, e, close, k) {
          FoundLater(data, e, close, k);
        }
        e := e + 1;
      }
      if e >= |data| {
        FoundNowhere(data, close);
        return;
      }
      var yes := PlistAt(data, e, close);
      if yes {
        FoundHere(data, e, close);
        return;
      }
      forall k | Found(data, e + 1, close, k) ensures Found(data, e, close, k) {
        FoundLater(data, e, close, k);
      }
      e := e + 1;
    }
  }

  method Blanks(data: string, pos: nat) returns (p: nat)
    requires pos <= |data|
    ensures pos <= p <= |data| && data[p..] == SkipBlanks(data[pos..])
  {
    p := pos;
    while p < |data| && IsBlank(data[p])
      invariant pos <= p <= |data| && SkipBlanks(data[p..]) == SkipBlanks(data[pos..])
    {
      assert data[p..][1..] == data[p + 1..];
      p := p + 1;
    }
    assert p < |data| ==> data[p..][0] == data[p];
  }

  /** kconf_plist_skip(): over blanks and comments. */
  method PlistSkip(data: string, pos: nat) returns (p: nat)
    requires pos <= |data|
    ensures pos <= p <= |data| && data[p..] == Skip(data[pos..])
  {
    p := pos;
    while true
      invariant pos <= p <= |data| && Skip(data[p..]) == Skip(data[pos..])
      decreases |data| - p
    {
      var start := p;
      p := Blanks(data, p);
      var comment := PlistAt(data, p, "<!--");
      if !comment {
        return;
      }
      assert data[p..][4..] == data[p + 4..];
      var e := Find(data, p + 4, "-->");
      if e >= |data| {
        p := |data|;
        return;
      }
      assert data[e..][3..] == data[e + 3..];
      p := e + 3;
    }
  }

  /** The name in a tag; only its first 15 characters are kept. */
  method TagName(data: string, start: nat) returns (name: string, p: nat)
    requires start <= |data|
    ensures start <= p <= |data| && NamePart(data[start..]) == data[start..p]
    ensures name == Bounded(data[start..p], TAG_MAX - 1)
  {
    name, p := "", start;
    while p < |data| && !EndsName(data[p])
      invariant start <= p <= |data| && name == Bounded(data[start..p], TAG_MAX - 1)
      invariant NamePart(data[start..]) == data[start..p] + NamePart(data[p..])
    {
      NameStep(data, start, p);
      if |name| < TAG_MAX - 1 {
        name := name + [data[p]];
      }
      p := p + 1;
    }
    assert p < |data| ==> data[p..][0] == data[p];
  }

  lemma NameStep(data: string, start: nat, p: nat)
    requires start <= p < |data| && !EndsName(data[p])
    ensures NamePart(data[p..]) == [data[p]] + NamePart(data[p + 1..])
    ensures data[start..p + 1] == data[start..p] + [data[p]]
    ensures data[start..p] + NamePart(data[p..]) == data[start..p + 1] + NamePart(data[p + 1..])
    ensures p - start < TAG_MAX - 1 ==>
      Bounded(data[start..p + 1], TAG_MAX - 1) == Bounded(data[start..p], TAG_MAX - 1) + [data[p]]
    ensures p - start >= TAG_MAX - 1 ==>
      Bounded(data[start..p + 1], TAG_MAX - 1) == Bounded(data[start..p], TAG_MAX - 1)
    ensures |Bounded(data[start..p], TAG_MAX - 1)| < TAG_MAX - 1 <==> p - start < TAG_MAX - 1
  {
    assert data[p..][0] == data[p] && data[p..][1..] == data[p + 1..];
  }

  /** kconf_plist_tag(): the tag at `pos`, and the place behind it. */
  method PlistTag(data: string, pos: nat) returns (ok: bool, name: string, isClose: bool, isEmpty: bool, q: nat)
    requires pos < |data| && data[pos] == '<'
    ensures ok ==> pos < q <= |data| && ReadTag(data[pos..]) == Some(Tag(name, isClose, isEmpty, data[q..]))
    ensures !ok ==> q == |data| && ReadTag(data[pos..]) == None
  {
    hide ReadTag;
    hide NamePart;
    hide CString;
    hide Bounded;
    hide Found;
    name, isClose, isEmpty, q := "", false, false, |data|;
    var p := pos + 1;
    if p < |data| && data[p] == '/' {
      isClose := true;
      p := p + 1;
    }
    ghost var start := p;
    var raw := "";
    if isClose || (p < |data| && data[p] != '?' && data[p] != '!') {
      raw, p := TagName(data, p);
    }
    BoundedNone(TAG_MAX - 1);
    name := CString(raw);
    var e := Find(data, p, ">");
    TagIs(data, pos, start, p, e);
    if e >= |data| {
      return false, name, isClose, isEmpty, |data|;
    }
    isEmpty := data[e - 1] == '/';
    q := e + 1;
    ok := true;
  }

  lemma BoundedNone(n: nat)
    ensures Bounded("", n) == ""
  {
  }

  /** How the pieces of a tag fit together. */
  lemma TagIs(data: string, pos: nat, start: nat, p: nat, e: nat)
    requires pos < |data| && data[pos] == '<' && pos < start <= p <= |data| && Found(data, p, ">", e)
    requires start == if pos + 1 < |data| && data[pos + 1] == '/' then pos + 2 else pos + 1
    requires var plain := start == pos + 2 || (start < |data| && data[start] != '?' && data[start] != '!');
      data[start..p] == if plain then NamePart(data[start..]) else ""
    ensures e < |data| ==>
      && e > pos
      && var name := CString(Bounded(data[start..p], TAG_MAX - 1));
        ReadTag(data[pos..]) == Some(Tag(name, start == pos + 2, data[e - 1] == '/', data[e + 1..]))
    ensures e >= |data| ==> ReadTag(data[pos..]) == None
  {
    hide DropTo;
    hide NamePart;
    hide CString;
    hide Bounded;
    hide ReadTag;
    var s, n, raw := data[pos..], start - pos, data[start..p];
    assert |s| > 1 ==> s[1] == data[pos + 1];
    assert s[n..] == data[start..];
    assert start < |data| ==> data[start..][0] == data[start];
    assert data[start..][|raw|..] == data[p..];
    TagBy(s, start == pos + 2, data[start..], raw, DropTo(data[p..], ">"));
    if e < |data| {
      assert data[e..][1..] == data[e + 1..];
      assert s[|s| - |data[e..]| - 1] == data[e - 1];
    }
  }

  /** A tag by its parts: what follows the bracket, its name, and the rest from the closing bracket on. */
  lemma TagBy(s: string, isClose: bool, t: string, raw: string, u: Option<string>)
    requires s != "" && s[0] == '<' && (isClose <==> |s| > 1 && s[1] == '/')
    requires t == (if isClose then s[2..] else s[1..])
    requires raw == (if isClose || (t != "" && t[0] != '?' && t[0] != '!') then NamePart(t) else "") && |raw| <= |t|
    requires u == DropTo(t[|raw|..], ">")
    ensures u.None? ==> ReadTag(s) == None
    ensures u.Some? ==>
      && 0 < |u.value| < |s|
      && var name := CString(Bounded(raw, TAG_MAX - 1));
        ReadTag(s) == Some(Tag(name, isClose, s[|s| - |u.value| - 1] == '/', u.value[1..]))
  {
    hide DropTo;
    hide NamePart;
    hide CString;
    hide Bounded;
  }

  // ---- text ----

  lemma {:induction false} DigitsBad(s: string, base: int, i: nat)
    requires (base == 10 || base == 16) && i <= |s| && Digits(s[..i], base) == -1
    ensures Digits(s, base) == -1
    decreases |s|
  {
    if i == |s| {
      assert s[..i] == s;
    } else {
      assert s[..|s| - 1][..i] == s[..i];
      DigitsBad(s[..|s| - 1], base, i);
    }
  }

  /** The digits of a numeric entity. */
  method Number(s: string, base: int) returns (value: int)
    requires base == 10 || base == 16
    ensures value == Digits(s, base)
  {
    value := 0;
    var i := 0;
    while i < |s|
      invariant i <= |s| && value == Digits(s[..i], base) && value >= 0
    {
      assert s[..i + 1][..i] == s[..i];
      var d := HexVal(s[i]);
      if d < 0 || d >= base {
        DigitsBad(s, base, i + 1);
        return -1;
      }
      value := value * base + d;
      i := i + 1;
    }
    assert s[..i] == s;
  }

  /** kconf_plist_entity(): the character of the entity between `pos` and the next `;`, and its length. */
  method PlistEntity(data: string, pos: nat, end: nat) returns (c: Option<char>, span: nat)
    requires pos <= end <= |data|
    ensures var e := DropTo(data[pos..end], ";");
      (e.None? ==> c.None?)
        && (e.Some? ==> pos + span < end && e.value == data[pos + span..end] && c == EntityChar(data[pos..pos + span]))
  {
    var text := data[..end];
    var e := Find(text, pos, ";");
    assert text[pos..] == data[pos..end];
    if e >= end {
      return None, 0;
    }
    assert text[e..] == data[e..end];
    span := e - pos;
    var name := data[pos..e];
    if name == "amp" || name == "lt" || name == "gt" || name == "quot" || name == "apos" {
      return EntityChar(name), span;
    }
    c := Numeric(name);
  }

  method Numeric(name: string) returns (c: Option<char>)
    requires name != "amp" && name != "lt" && name != "gt" && name != "quot" && name != "apos"
    ensures c == EntityChar(name)
  {
    if |name| < 2 || name[0] != '#' {
      return None;
    }
    var hex := name[1] == 'x' || name[1] == 'X';
    var digits := if hex then name[2..] else name[1..];
    var value := Number(digits, if hex then 16 else 10);
    return if digits != "" && 0 < value < 0x80 then Some(value as char) else None;
  }

  /** `done` is the first part of a text, decoded; `rest` is still to be. */
  ghost predicate PartDone(whole: string, done: string, rest: string) {
    Decode(whole) == if Decode(rest).None? then None else Some(done + Decode(rest).value)
  }

  lemma PlainStep(whole: string, done: string, rest: string)
    requires PartDone(whole, done, rest) && rest != "" && rest[0] != '&'
    ensures PartDone(whole, done + [rest[0]], rest[1..])
  {
    if Decode(rest[1..]).Some? {
      assert done + ([rest[0]] + Decode(rest[1..]).value) == done + [rest[0]] + Decode(rest[1..]).value;
    }
  }

  lemma EntityStep(whole: string, done: string, rest: string, n: nat)
    requires PartDone(whole, done, rest) && rest != "" && rest[0] == '&' && 1 + n < |rest|
    requires DropTo(rest[1..], ";") == Some(rest[1 + n..])
    ensures EntityChar(rest[1..1 + n]).None? ==> Decode(whole).None?
    ensures EntityChar(rest[1..1 + n]).Some? ==>
      PartDone(whole, done + [EntityChar(rest[1..1 + n]).value], rest[2 + n..])
  {
    hide DropTo;
    hide EntityChar;
    assert rest[1 + n..][1..] == rest[2 + n..];
    var c := EntityChar(rest[1..1 + n]);
    if c.Some? && Decode(rest[2 + n..]).Some? {
      assert done + ([c.value] + Decode(rest[2 + n..]).value) == done + [c.value] + Decode(rest[2 + n..]).value;
    }
  }

  lemma BoundedMore(s: string, c: char, n: nat)
    ensures Bounded(s + [c], n) == if |Bounded(s, n)| < n then Bounded(s, n) + [c] else Bounded(s, n)
  {
  }

  /**
    * kconf_plist_text(): the text with its entities resolved, cut to the size of the buffer; refused when one cannot
    * be.
    */
  method PlistText(data: string, start: nat, end: nat, outsz: nat) returns (ok: bool, out: string)
    requires start <= end <= |data| && outsz > 0
    ensures ok <==> Decode(data[start..end]).Some?
    ensures ok ==> out == Bounded(Decode(data[start..end]).value, outsz - 1)
  {
    hide Decode;
    hide PartDone;
    hide DropTo;
    hide EntityChar;
    hide Bounded;
    var i := start;
    out := "";
    ghost var whole, done := data[start..end], "";
    NothingDone(whole, outsz - 1);
    while i < end
      invariant start <= i <= end && PartDone(whole, done, data[i..end]) && out == Bounded(done, outsz - 1)
    {
      ghost var rest := data[i..end];
      assert rest[0] == data[i];
      if data[i] == '&' {
        assert rest[1..] == data[i + 1..end];
        var c, span := PlistEntity(data, i + 1, end);
        EntityGone(whole, done, rest);
        if DropTo(rest[1..], ";").Some? {
          SlicesOf(data, i, end, 1 + span);
          EntityStep(whole, done, rest, span);
        }
        if c.None? {
          return false, out;
        }
        BoundedMore(done, c.value, outsz - 1);
        if |out| < outsz - 1 {
          out := out + [c.value];
        }
        done := done + [c.value];
        assert rest[2 + span..] == data[i + span + 2..end];
        i := i + span + 2;
      } else {
        PlainStep(whole, done, rest);
        BoundedMore(done, data[i], outsz - 1);
        if |out| < outsz - 1 {
          out := out + [data[i]];
        }
        done := done + [data[i]];
        assert rest[1..] == data[i + 1..end];
        i := i + 1;
      }
    }
    assert data[i..end] == "";
    AllDone(whole, done);
    return true, out;
  }

  lemma SlicesOf(data: string, i: nat, end: nat, n: nat)
    requires 1 <= n && i + n <= end <= |data|
    ensures data[i..end][n..] == data[i + n..end] && data[i..end][1..n] == data[i + 1..i + n]
  {
    var s, a, b := data[i..end], data[i..end][1..n], data[i + 1..i + n];
    assert |a| == |b| && forall j :: 0 <= j < |a| ==> a[j] == s[j + 1] == b[j];
  }

  lemma NothingDone(whole: string, n: nat)
    ensures PartDone(whole, "", whole) && Bounded("", n) == ""
  {
    if Decode(whole).Some? {
      assert "" + Decode(whole).value == Decode(whole).value;
    }
  }

  lemma AllDone(whole: string, done: string)
    requires PartDone(whole, done, "")
    ensures Decode(whole) == Some(done)
  {
    assert done + "" == done;
  }

  lemma EntityGone(whole: string, done: string, rest: string)
    requires PartDone(whole, done, rest) && rest != "" && rest[0] == '&'
    ensures DropTo(rest[1..], ";").None? ==> Decode(whole).None?
  {
  }

  // ---- elements and settings ----

  /** kconf_plist_skip_element(): past an element whose open tag was read, with those of the same name inside it. */
  method PlistSkipElement(data: string, pos: nat, name: string, isEmpty: bool) returns (p: nat)
    requires pos <= |data|
    ensures pos <= p <= |data| && data[p..] == SkipElement(data[pos..], name, if isEmpty then 0 else 1)
  {
    hide ReadTag;
    hide DropTo;
    p := pos;
    var depth := if isEmpty then 0 else 1;
    while depth > 0
      invariant pos <= p <= |data| && depth >= 0
      invariant SkipElement(data[p..], name, depth) == SkipElement(data[pos..], name, if isEmpty then 0 else 1)
      decreases |data| - p, depth
    {
      var e := Find(data, p, "<");
      if e >= |data| {
        p := |data|;
        return;
      }
      LessThanAt(data, p, e);
      var ok, tag, isClose, tagEmpty, q := PlistTag(data, e);
      if !ok {
        p := |data|;
        return;
      }
      if tag == name {
        if isClose {
          depth := depth - 1;
        } else if !tagEmpty {
          depth := depth + 1;
        }
      }
      p := q;
    }
  }

  lemma LessThanAt(data: string, p: nat, e: nat)
    requires Found(data, p, "<", e) && e < |data|
    ensures data[e] == '<'
  {
    assert StartsWith(data[e..], "<");
    assert data[e..][..1][0] == data[e];
  }

  /** The first part of kconf_plist_next(): behind the next open `key` tag. */
  method FindKey(data: string, off: nat) returns (found: bool, pos: nat)
    requires off <= |data|
    ensures found ==> off < pos <= |data| && NextKey(data[off..]) == Some(data[pos..])
    ensures !found ==> NextKey(data[off..]) == None
  {
    hide ReadTag;
    hide Skip;
    pos := off;
    while true
      invariant off <= pos <= |data| && NextKey(data[pos..]) == NextKey(data[off..])
      decreases |data| - pos
    {
      var start := pos;
      pos := PlistSkip(data, pos);
      if pos >= |data| {
        return false, pos;
      }
      assert data[pos..][0] == data[pos];
      if data[pos] != '<' {
        assert data[pos..][1..] == data[pos + 1..];
        pos := pos + 1;
      } else {
        var ok, tag, isClose, isEmpty, q := PlistTag(data, pos);
        if !ok {
          return false, pos;
        }
        pos := q;
        if !isClose && tag == "key" {
          return true, pos;
        }
      }
    }
  }

  /** The last part of kconf_plist_next(): the value element behind a key. */
  method ReadValue(data: string, start: nat, key: string) returns (more: bool, setting: Setting, off: nat)
    requires start <= |data|
    ensures start <= off <= |data|
    ensures NextValue(data[start..], key) == if more then Got(setting, data[off..]) else End
    ensures !more ==> off == |data|
  {
    hide ReadTag;
    hide Skip;
    hide Decode;
    hide DropTo;
    hide SkipElement;
    setting := Malformed;
    var pos := PlistSkip(data, start);
    if pos >= |data| {
      return false, setting, |data|;
    }
    assert data[pos..][0] == data[pos];
    if data[pos] != '<' {
      return true, setting, pos;
    }
    var ok, tag, isClose, isEmpty, q := PlistTag(data, pos);
    if !ok {
      return false, setting, |data|;
    }
    if isClose {
      return true, setting, q;
    }
    if tag == "string" || tag == "integer" {
      setting, off := ReadElement(data, q, tag, key);
      ElementArm(data, start, q, tag, isEmpty, key);
      return true, setting, off;
    }
    if tag == "true" || tag == "false" {
      return true, Boolean(key, tag == "true"), q;
    }
    off := PlistSkipElement(data, q, tag, isEmpty);
    return true, setting, off;
  }

  /** What a text or integer element gives, from behind its open tag. */
  function Element(s: string, tag: string, key: string): Step
    requires tag == "string" || tag == "integer"
  {
    var close := if tag == "integer" then "</integer>" else "</string>";
    var e := DropTo(s, close);
    if e.None? then Got(Malformed, "")
    else
      var text := Decode(s[..|s| - |e.value|]);
      if text.None? then Got(Malformed, e.value[|close|..])
      else
        var v := Bounded(text.value, VALUE_SIZE - 1);
        Got(if tag == "integer" then Integer(key, v) else Text(key, v), e.value[|close|..])
  }

  lemma ElementArm(data: string, start: nat, q: nat, tag: string, isEmpty: bool, key: string)
    requires start <= |data| && q <= |data| && (tag == "string" || tag == "integer")
    requires var t := Skip(data[start..]);
      t != "" && t[0] == '<' && ReadTag(t) == Some(Tag(tag, false, isEmpty, data[q..]))
    ensures NextValue(data[start..], key) == Element(data[q..], tag, key)
  {
    hide ReadTag;
    hide Skip;
    hide Decode;
    hide DropTo;
    hide SkipElement;
    hide Bounded;
  }

  method ReadElement(data: string, pos: nat, tag: string, key: string) returns (setting: Setting, off: nat)
    requires pos <= |data| && (tag == "string" || tag == "integer")
    ensures pos <= off <= |data| && Element(data[pos..], tag, key) == Got(setting, data[off..])
  {
    hide Decode;
    hide DropTo;
    hide Bounded;
    setting := Malformed;
    var close := if tag == "integer" then "</integer>" else "</string>";
    var e := FindClose(data, pos, close);
    if e >= |data| {
      return setting, |data|;
    }
    CloseFits(data, pos, close, e);
    var ok, v := PlistText(data, pos, e, VALUE_SIZE);
    off := e + |close|;
    assert data[e..][|close|..] == data[off..];
    assert data[pos..][..|data[pos..]| - |data[e..]|] == data[pos..e];
    if ok {
      setting := if tag == "integer" then Integer(key, v) else Text(key, v);
    }
  }

  lemma CloseFits(data: string, pos: nat, close: string, e: nat)
    requires Found(data, pos, close, e) && e < |data|
    ensures e + |close| <= |data|
  {
    assert StartsWith(data[e..], close);
  }

  /**
    * kconf_next(): the next setting. When there is one the offset has moved on, within the buffer; at the end it is the
    * size of the buffer.
    */
  method KconfNext(data: string, off: nat) returns (more: bool, setting: Setting, off': nat)
    ensures more ==> off < off' <= |data| && Next(data[off..]) == Got(setting, data[off'..])
    ensures !more ==> off' == |data| && (off <= |data| ==> Next(data[off..]) == End)
  {
    hide NextKey;
    hide NextValue;
    hide Decode;
    hide DropTo;
    hide Bounded;
    setting := Malformed;
    if off > |data| {
      return false, setting, |data|;
    }
    var found, pos := FindKey(data, off);
    if !found {
      return false, setting, |data|;
    }
    var e := FindClose(data, pos, "</key>");
    if e >= |data| {
      return false, setting, |data|;
    }
    CloseFits(data, pos, "</key>", e);
    assert data[e..][6..] == data[e + 6..];
    assert data[pos..][..|data[pos..]| - |data[e..]|] == data[pos..e];
    if e - pos >= KEY_SIZE {
      return true, setting, e + 6;
    }
    var ok, key := PlistText(data, pos, e, KEY_SIZE);
    if !ok {
      return true, setting, e + 6;
    }
    more, setting, off' := ReadValue(data, e + 6, key);
  }

  /** Reading a whole buffer, as the kernel does at boot. */
  method ReadAll(data: string) returns (settings: seq<Setting>)
    ensures settings == All(data)
  {
    settings := [];
    var off := 0;
    assert data[0..] == data;
    hide Next;
    while true
      invariant off <= |data| && All(data) == settings + All(data[off..])
      decreases |data| - off
    {
      var more, setting, off' := KconfNext(data, off);
      if !more {
        return;
      }
      settings := settings + [setting];
      off := off';
    }
  }
}
