/** The JSON text of the upgrade state: strings as in section 7 of RFC 8259, restricted to what the
    reader knows. A reader takes the text that is left and returns what it read with the rest. */
module UpgradeJson {
  import opened Base

  type Read<T> = Result<T, string>

  // ---------- Writing ----------

  function HexDigit(d: nat): char
    requires d < 16
  {
    if d < 10 then '0' + d as char else 'a' + (d - 10) as char
  }

  function EscapeChar(c: char): string {
    if c == '\\' then "\\\\"
    else if c == '\"' then "\\\""
    else if c == '\n' then "\\n"
    else if c == '\r' then "\\r"
    else if c == '\t' then "\\t"
    else if c < ' ' then "\\u00" + [HexDigit(c as nat / 16), HexDigit(c as nat % 16)]
    else [c]
  }

  function Escape(s: string): string { if s == "" then "" else EscapeChar(s[0]) + Escape(s[1..]) }

  /** No control character, except those with a short escape. */
  predicate Plain(s: string) { forall k | 0 <= k < |s| :: s[k] >= ' ' || s[k] == '\n' || s[k] == '\r' || s[k] == '\t' }

  method JsonEscape(input: string) returns (out: string)
    ensures out == Escape(input)
  {
    out := "";
    var n := 0;
    while n < |input|
      invariant 0 <= n <= |input| && out + Escape(input[n..]) == Escape(input)
    {
      assert input[n..][1..] == input[n + 1..];
      out := out + EscapeChar(input[n]);
      n := n + 1;
    }
    assert input[n..] == "" && out + "" == out;
  }

  // ---------- Reading ----------

  function Unescaped(c: char): Option<char> {
    match c
    case '\"' => Some('\"')
    case '\\' => Some('\\')
    case '/' => Some('/')
    case 'b' => Some(8 as char)
    case 'f' => Some(12 as char)
    case 'n' => Some('\n')
    case 'r' => Some('\r')
    case 't' => Some('\t')
    case _ => None
  }

  function Prepend(c: char, r: Read<(string, string)>): Read<(string, string)> {
    match r
    case Ok((value, rest)) => Ok(([c] + value, rest))
    case Err(e) => Err(e)
  }

  /** The string up to its closing quote, which is passed over. */
  function ReadBody(rest: string): (r: Read<(string, string)>)
    ensures r.Ok? ==> |r.value.1| < |rest|
  {
    if rest == "" then Err("unterminated JSON string")
    else if rest[0] == '\"' then Ok(("", rest[1..]))
    else if rest[0] != '\\' then
      if rest[0] < ' ' then Err("control byte in JSON string") else Prepend(rest[0], ReadBody(rest[1..]))
    else if |rest| < 2 then Err("unterminated JSON escape")
    else if Unescaped(rest[1]).None? then Err("unsupported JSON escape")
    else Prepend(Unescaped(rest[1]).value, ReadBody(rest[2..]))
  }

  function ReadString(rest: string): (r: Read<(string, string)>)
    ensures r.Ok? ==> |r.value.1| < |rest|
  {
    if rest == "" || rest[0] != '\"' then Err("expected JSON string") else ReadBody(rest[1..])
  }

  /** `isspace` of the C locale. */
  predicate IsSpace(c: char) { c == ' ' || 9 <= c as nat <= 13 }

  function SkipSpace(rest: string): (r: string)
    ensures |r| <= |rest|
  {
    if rest != "" && IsSpace(rest[0]) then SkipSpace(rest[1..]) else rest
  }

  datatype Scan = Scan(inString: bool, escaped: bool, nested: nat)

  const OUTSIDE: Scan := Scan(false, false, 0)

  function InString(s: Scan, c: char): Scan {
    if s.escaped then s.(escaped := false)
    else if c == '\\' then s.(escaped := true)
    else if c == '\"' then s.(inString := false)
    else s
  }

  /** Passes over a value, up to the comma after it or to the end of the object. */
  function SkipValue(rest: string, s: Scan): (r: string)
    ensures |r| <= |rest|
  {
    if rest == "" then rest
    else if s.inString then SkipValue(rest[1..], InString(s, rest[0]))
    else if rest[0] == '\"' then SkipValue(rest[1..], s.(inString := true))
    else if rest[0] == '{' || rest[0] == '[' then SkipValue(rest[1..], s.(nested := s.nested + 1))
    else if rest[0] == '}' || rest[0] == ']' then
      if s.nested == 0 then rest else SkipValue(rest[1..], s.(nested := s.nested - 1))
    else if rest[0] == ',' && s.nested == 0 then rest[1..]
    else SkipValue(rest[1..], s)
  }

  predicate StartsWith(rest: string, text: string) { |rest| >= |text| && rest[..|text|] == text }

  /** Looks for a member among the members that are left. */
  function FindMember(rest: string, key: string): Read<Option<string>>
    decreases |rest|
  {
    var here := SkipSpace(rest);
    if here != "" && here[0] == '}' then Ok(None)
    else
      var name := ReadString(here);
      if name.Err? then Err(name.error)
      else
        var colon := SkipSpace(name.value.1);
        if colon == "" || colon[0] != ':' then Err("expected JSON member separator")
        else
          var value := SkipSpace(colon[1..]);
          if name.value.0 == key then
            if StartsWith(value, "null") then Ok(None)
            else
              var read := ReadString(value);
              if read.Err? then Err(read.error) else Ok(Some(read.value.0))
          else FindMember(SkipValue(value, OUTSIDE), key)
  }

  function ObjectMember(text: string, key: string): Read<Option<string>> {
    var here := SkipSpace(text);
    if here == "" || here[0] != '{' then Err("expected JSON object") else FindMember(here[1..], key)
  }

  function RequireMember(text: string, key: string): Read<string> {
    var value := ObjectMember(text, key);
    if value.Err? then Err(value.error)
    else if value.value.None? || value.value.value == "" then Err("upgrade instruction missing " + key)
    else Ok(value.value.value)
  }

  // ---------- The readers as loops over a position ----------

  method JsonUnescapeString(text: string, from: nat) returns (r: Read<string>, pos: nat)
    requires from <= |text|
    ensures pos <= |text|
    ensures match ReadString(text[from..])
            case Ok((value, rest)) => r == Ok(value) && rest == text[pos..]
            case Err(e) => r == Err(e)
  {
    hide Continues, Prepend;
    pos := from;
    ghost var whole := ReadString(text[from..]);
    if pos >= |text| || text[pos] != '\"' {
      return Err("expected JSON string"), pos;
    }
    pos := pos + 1;
    assert text[from..][1..] == text[pos..];
    var out := "";
    ContinuesFrom(whole);
    while pos < |text|
      invariant from < pos <= |text|
      invariant Continues(whole, out, ReadBody(text[pos..]))
      decreases |text| - pos
    {
      var c := text[pos];
      ghost var here := text[pos..];
      assert here[1..] == text[pos + 1..];
      pos := pos + 1;
      if c == '\"' {
        ContinuesEnd(whole, out, ReadBody(here));
        return Ok(out), pos;
      }
      if c != '\\' {
        if c < ' ' {
          ContinuesEnd(whole, out, ReadBody(here));
          return Err("control byte in JSON string"), pos;
        }
        ContinuesStep(whole, out, c, ReadBody(text[pos..]));
        out := out + [c];
        continue;
      }
      if pos >= |text| {
        ContinuesEnd(whole, out, ReadBody(here));
        return Err("unterminated JSON escape"), pos;
      }
      var escaped := Unescaped(text[pos]);
      assert here[2..] == text[pos + 1..];
      pos := pos + 1;
      if escaped.None? {
        ContinuesEnd(whole, out, ReadBody(here));
        return Err("unsupported JSON escape"), pos;
      }
      ContinuesStep(whole, out, escaped.value, ReadBody(text[pos..]));
      out := out + [escaped.value];
    }
    ContinuesEnd(whole, out, ReadBody(text[pos..]));
    r := Err("unterminated JSON string");
  }

  /** What was read so far, followed by what the rest gives, is the whole. */
  ghost predicate Continues(whole: Read<(string, string)>, out: string, r: Read<(string, string)>) {
    match r
    case Ok((value, rest)) => whole == Ok((out + value, rest))
    case Err(e) => whole == Err(e)
  }

  lemma ContinuesFrom(whole: Read<(string, string)>)
    ensures Continues(whole, "", whole)
  {
    if whole.Ok? {
      assert "" + whole.value.0 == whole.value.0;
    }
  }

  lemma ContinuesStep(whole: Read<(string, string)>, out: string, c: char, r: Read<(string, string)>)
    requires Continues(whole, out, Prepend(c, r))
    ensures Continues(whole, out + [c], r)
  {
    if r.Ok? {
      assert out + ([c] + r.value.0) == (out + [c]) + r.value.0;
    }
  }

  lemma ContinuesEnd(whole: Read<(string, string)>, out: string, r: Read<(string, string)>)
    requires Continues(whole, out, r)
    ensures r.Ok? && r.value.0 == "" ==> whole == Ok((out, r.value.1))
    ensures r.Err? ==> whole == r
  {
    assert out + "" == out;
  }

  method SkipSpaceFrom(text: string, from: nat) returns (pos: nat)
    requires from <= |text|
    ensures from <= pos <= |text| && text[pos..] == SkipSpace(text[from..])
  {
    pos := from;
    while pos < |text| && IsSpace(text[pos])
      invariant from <= pos <= |text| && SkipSpace(text[pos..]) == SkipSpace(text[from..])
    {
      assert text[pos..][1..] == text[pos + 1..];
      pos := pos + 1;
    }
  }

  method SkipValueFrom(text: string, from: nat) returns (pos: nat)
    requires from <= |text|
    ensures from <= pos <= |text| && text[pos..] == SkipValue(text[from..], OUTSIDE)
  {
    pos := from;
    var s := OUTSIDE;
    while pos < |text|
      invariant from <= pos <= |text| && SkipValue(text[pos..], s) == SkipValue(text[from..], OUTSIDE)
      decreases |text| - pos
    {
      var c := text[pos];
      assert text[pos..][1..] == text[pos + 1..];
      if s.inString {
        pos := pos + 1;
        s := InString(s, c);
        continue;
      }
      if c == '\"' {
        s := s.(inString := true);
        pos := pos + 1;
        continue;
      }
      if c == '{' || c == '[' {
        s := s.(nested := s.nested + 1);
        pos := pos + 1;
        continue;
      }
      if c == '}' || c == ']' {
        if s.nested == 0 {
          return;
        }
        s := s.(nested := s.nested - 1);
        pos := pos + 1;
        continue;
      }
      if c == ',' && s.nested == 0 {
        pos := pos + 1;
        return;
      }
      pos := pos + 1;
    }
  }

  method ObjectMemberString(text: string, key: string) returns (r: Read<Option<string>>)
    ensures r == ObjectMember(text, key)
  {
    hide ReadString, SkipSpace, SkipValue;
    var pos := SkipSpaceFrom(text, 0);
    assert text[0..] == text;
    if pos >= |text| || text[pos] != '{' {
      return Err("expected JSON object");
    }
    assert text[pos..][1..] == text[pos + 1..];
    pos := pos + 1;
    while true
      invariant pos <= |text| && ObjectMember(text, key) == FindMember(text[pos..], key)
      decreases |text| - pos
    {
      var start := pos;
      pos := SkipSpaceFrom(text, pos);
      if pos < |text| && text[pos] == '}' {
        return Ok(None);
      }
      var name;
      name, pos := JsonUnescapeString(text, pos);
      if name.Err? {
        return Err(name.error);
      }
      pos := SkipSpaceFrom(text, pos);
      if pos >= |text| || text[pos] != ':' {
        return Err("expected JSON member separator");
      }
      assert text[pos..][1..] == text[pos + 1..];
      pos := pos + 1;
      pos := SkipSpaceFrom(text, pos);
      if name.value == key {
        if StartsWith(text[pos..], "null") {
          return Ok(None);
        }
        var value;
        value, pos := JsonUnescapeString(text, pos);
        if value.Err? {
          return Err(value.error);
        }
        return Ok(Some(value.value));
      }
      pos := SkipValueFrom(text, pos);
    }
  }
}
