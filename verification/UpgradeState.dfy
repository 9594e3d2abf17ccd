/** The upgrade state file: what is written can be read back exactly when no text in it holds a control
    character the reader does not know and no required text is empty. */
module UpgradeStates {
  import opened Base
  import opened UpgradeJson

  datatype LocalState = Received | Downloading | Verified | Failed

  datatype UpgradeState = UpgradeState(
    upgradeId: string, version: string, buildId: string, gitCommit: string, os: string, arch: string,
    artifactName: string, downloadUrl: string, sha256: string, state: LocalState, downloadPath: string, lastError: string)

  function StateName(s: LocalState): string {
    match s
    case Received => "RECEIVED"
    case Downloading => "DOWNLOADING"
    case Verified => "VERIFIED"
    case Failed => "FAILED"
  }

  function StateFromName(name: string): Read<LocalState> {
    if name == "RECEIVED" then Ok(Received)
    else if name == "DOWNLOADING" then Ok(Downloading)
    else if name == "VERIFIED" then Ok(Verified)
    else if name == "FAILED" then Ok(Failed)
    else Err("unknown local upgrade state: " + name)
  }

  const KEYS: seq<string> := [
    "upgrade_id", "version", "build_id", "git_commit", "os", "arch",
    "artifact_name", "download_url", "sha256", "state", "download_path", "last_error"]

  function Values(s: UpgradeState): seq<string> {
    [s.upgradeId, s.version, s.buildId, s.gitCommit, s.os, s.arch,
     s.artifactName, s.downloadUrl, s.sha256, StateName(s.state), s.downloadPath, s.lastError]
  }

  // ---------- Writing ----------

  function MemberText(key: string, value: string): string { "  \"" + key + "\": \"" + Escape(value) + "\"" }

  /** The members, one a line, and the closing brace. */
  function Body(keys: seq<string>, values: seq<string>): string
    requires |keys| == |values| > 0
  {
    "\n" + MemberText(keys[0], values[0]) + if |keys| == 1 then "\n}\n" else "," + Body(keys[1..], values[1..])
  }

  function StateJson(s: UpgradeState): string { "{" + Body(KEYS, Values(s)) }

  // ---------- Reading ----------

  function StateFromJson(text: string): Read<UpgradeState> {
    var upgradeId :- RequireMember(text, KEYS[0]);
    var version :- RequireMember(text, KEYS[1]);
    var buildId :- RequireMember(text, KEYS[2]);
    var gitCommit :- RequireMember(text, KEYS[3]);
    var os :- RequireMember(text, KEYS[4]);
    var arch :- RequireMember(text, KEYS[5]);
    var artifactName :- RequireMember(text, KEYS[6]);
    var downloadUrl :- RequireMember(text, KEYS[7]);
    var sha256 :- RequireMember(text, KEYS[8]);
    var name :- RequireMember(text, KEYS[9]);
    var state :- StateFromName(name);
    var downloadPath :- ObjectMember(text, KEYS[10]);
    var lastError :- ObjectMember(text, KEYS[11]);
    Ok(UpgradeState(upgradeId, version, buildId, gitCommit, os, arch, artifactName, downloadUrl, sha256, state,
                    downloadPath.GetOr(""), lastError.GetOr("")))
  }

  // ---------- One string ----------

  predicate PlainChar(c: char) { c >= ' ' || c == '\n' || c == '\r' || c == '\t' }

  const UNKNOWN_ESCAPE: string := "unsupported JSON escape"

  lemma ReadEscapedChar(c: char, rest: string)
    ensures ReadBody(EscapeChar(c) + rest) == if PlainChar(c) then Prepend(c, ReadBody(rest)) else Err(UNKNOWN_ESCAPE)
  {
    var text := EscapeChar(c) + rest;
    assert text[0] == EscapeChar(c)[0] && (|EscapeChar(c)| > 1 ==> text[1] == EscapeChar(c)[1]);
    assert |EscapeChar(c)| == 1 ==> text[1..] == rest;
    assert |EscapeChar(c)| == 2 ==> text[2..] == rest;
  }

  /** An escaped string reads back as itself, unless it holds an unknown control character. */
  lemma {:induction false} ReadEscaped(v: string, tail: string)
    ensures ReadBody(Escape(v) + "\"" + tail) == if Plain(v) then Ok((v, tail)) else Err(UNKNOWN_ESCAPE)
  {
    hide EscapeChar;
    if v == "" {
      assert Escape(v) + "\"" + tail == "\"" + tail;
    } else {
      var rest := Escape(v[1..]) + "\"" + tail;
      assert Escape(v) + "\"" + tail == EscapeChar(v[0]) + rest;
      ReadEscapedChar(v[0], rest);
      ReadEscaped(v[1..], tail);
      assert v == [v[0]] + v[1..];
      assert Plain(v) <==> PlainChar(v[0]) && Plain(v[1..]);
    }
  }

  lemma SkipOne(c: char, rest: string, s: Scan)
    requires s.inString
    ensures SkipValue([c] + rest, s) == SkipValue(rest, InString(s, c))
  {
    assert ([c] + rest)[1..] == rest;
  }

  lemma SkipEscapedChar(c: char, rest: string, nested: nat)
    ensures var s := Scan(true, false, nested); SkipValue(EscapeChar(c) + rest, s) == SkipValue(rest, s)
  {
    hide SkipValue;
    var s := Scan(true, false, nested);
    var e := EscapeChar(c);
    if |e| == 1 {
      SkipOne(c, rest, s);
    } else if |e| == 2 {
      assert e + rest == [e[0]] + ([e[1]] + rest);
      SkipOne(e[0], [e[1]] + rest, s);
      SkipOne(e[1], rest, s.(escaped := true));
    } else {
      var r5 := [e[5]] + rest;
      var r4 := [e[4]] + r5;
      var r3 := ['0'] + r4;
      var r2 := ['0'] + r3;
      var r1 := ['u'] + r2;
      assert e + rest == ['\\'] + r1;
      SkipOne('\\', r1, s);
      SkipOne('u', r2, s.(escaped := true));
      SkipOne('0', r3, s);
      SkipOne('0', r4, s);
      SkipOne(e[4], r5, s);
      SkipOne(e[5], rest, s);
    }
  }

  /** Any escaped string is passed over as one value. */
  lemma {:induction false} SkipEscaped(v: string, tail: string, nested: nat)
    ensures SkipValue(Escape(v) + "\"" + tail, Scan(true, false, nested)) == SkipValue(tail, Scan(false, false, nested))
  {
    hide SkipValue, EscapeChar;
    if v == "" {
      assert Escape(v) + "\"" + tail == ['\"'] + tail;
      SkipOne('\"', tail, Scan(true, false, nested));
    } else {
      var rest := Escape(v[1..]) + "\"" + tail;
      assert Escape(v) + "\"" + tail == EscapeChar(v[0]) + rest;
      SkipEscapedChar(v[0], rest, nested);
      SkipEscaped(v[1..], tail, nested);
    }
  }

  // ---------- One member ----------

  /** A key that needs no escapes. */
  predicate Simple(key: string) { forall k | 0 <= k < |key| :: key[k] >= ' ' && key[k] != '\\' && key[k] != '\"' }

  lemma {:induction false} SimpleIsItself(key: string)
    requires Simple(key)
    ensures Escape(key) == key && Plain(key)
  {
    if key != "" {
      SimpleIsItself(key[1..]);
      assert key == [key[0]] + key[1..];
    }
  }

  function ReadBack(v: string): Read<Option<string>> { if Plain(v) then Ok(Some(v)) else Err(UNKNOWN_ESCAPE) }

  lemma SkipSpaces(rest: string)
    requires rest == "" || !IsSpace(rest[0])
    ensures SkipSpace(rest) == rest && SkipSpace(" " + rest) == rest && SkipSpace("\n  " + rest) == rest
  {
    assert (" " + rest)[1..] == rest;
    assert ("\n  " + rest)[1..] == "  " + rest && ("  " + rest)[1..] == " " + rest;
    assert SkipSpace("  " + rest) == SkipSpace(" " + rest);
  }

  lemma FindsMember(key: string, value: string, tail: string, wanted: string)
    requires Simple(key)
    ensures FindMember("\n" + MemberText(key, value) + tail, wanted)
            == if key == wanted then ReadBack(value) else FindMember(SkipValue(tail, OUTSIDE), wanted)
  {
    hide SkipSpace, ReadBody, SkipValue, Escape, Plain, Simple;
    var quoted := "\"" + (Escape(value) + "\"" + tail);
    var after := ":" + (" " + quoted);
    var here := "\"" + (key + "\"" + after);
    var text := "\n" + MemberText(key, value) + tail;
    assert text == "\n  " + here;
    SkipSpaces(here);
    SimpleIsItself(key);
    ReadEscaped(key, after);
    assert ReadString(here) == Ok((key, after)) by { assert here[1..] == key + "\"" + after; }
    SkipSpaces(after);
    assert after[1..] == " " + quoted;
    SkipSpaces(quoted);
    assert quoted[1..] == Escape(value) + "\"" + tail;
    ReadEscaped(value, tail);
    assert !StartsWith(quoted, "null") by { assert quoted[0] == '\"'; }
    SkipQuoted(value, tail);
  }

  lemma SkipQuoted(value: string, tail: string)
    ensures SkipValue("\"" + (Escape(value) + "\"" + tail), OUTSIDE) == SkipValue(tail, OUTSIDE)
  {
    var quoted := "\"" + (Escape(value) + "\"" + tail);
    assert quoted[1..] == Escape(value) + "\"" + tail;
    SkipEscaped(value, tail, 0);
  }

  // ---------- All members ----------

  ghost predicate Distinct(keys: seq<string>) { forall i, j | 0 <= i < j < |keys| :: keys[i] != keys[j] }

  /** Every member is found under its own key. */
  lemma {:induction false} FindsEach(keys: seq<string>, values: seq<string>, i: nat)
    requires |keys| == |values| && i < |keys| && Distinct(keys) && forall k | 0 <= k < |keys| :: Simple(keys[k])
    ensures FindMember(Body(keys, values), keys[i]) == ReadBack(values[i])
  {
    hide FindMember, MemberText, SkipValue, Simple, ReadBack;
    var tail := if |keys| == 1 then "\n}\n" else "," + Body(keys[1..], values[1..]);
    assert Body(keys, values) == "\n" + MemberText(keys[0], values[0]) + tail;
    FindsMember(keys[0], values[0], tail, keys[i]);
    if i > 0 {
      SkipComma(Body(keys[1..], values[1..]));
      FindsEach(keys[1..], values[1..], i - 1);
    }
  }

  lemma SkipComma(rest: string)
    ensures SkipValue("," + rest, OUTSIDE) == rest
  {
    assert ("," + rest)[1..] == rest;
  }

  lemma KeysAreDistinct()
    ensures Distinct(KEYS)
  {
    assert |KEYS[0]| == 10 && KEYS[0][0] == 'u' && |KEYS[1]| == 7 && |KEYS[2]| == 8 && |KEYS[3]| == 10 && KEYS[3][0] == 'g';
    assert |KEYS[4]| == 2 && |KEYS[5]| == 4 && |KEYS[6]| == 13 && KEYS[6][0] == 'a' && |KEYS[7]| == 12 && |KEYS[8]| == 6;
    assert |KEYS[9]| == 5 && |KEYS[10]| == 13 && KEYS[10][0] == 'd' && |KEYS[11]| == 10 && KEYS[11][0] == 'l';
  }

  lemma KeysAreSimple(k: nat)
    requires k < |KEYS|
    ensures Simple(KEYS[k])
  {
  }

  lemma ReadsEach(s: UpgradeState, i: nat)
    requires i < |KEYS|
    ensures ObjectMember(StateJson(s), KEYS[i]) == ReadBack(Values(s)[i])
  {
    hide FindMember, Body, ReadBack, Simple, Distinct;
    KeysAreDistinct();
    forall k: nat | k < |KEYS| ensures Simple(KEYS[k]) { KeysAreSimple(k); }
    FindsEach(KEYS, Values(s), i);
    SkipNothing(Body(KEYS, Values(s)));
  }

  lemma SkipNothing(rest: string)
    ensures SkipSpace("{" + rest) == "{" + rest && ("{" + rest)[1..] == rest
  {
  }

  // ---------- The state ----------

  /** The nine texts of the instruction are required; path and error may be empty. */
  predicate Storable(s: UpgradeState) {
    && (forall i | 0 <= i < 9 :: Values(s)[i] != "")
    && (forall i | 0 <= i < |Values(s)| :: Plain(Values(s)[i]))
  }

  lemma NamesAreRead(s: LocalState)
    ensures StateFromName(StateName(s)) == Ok(s) && StateName(s) != "" && Plain(StateName(s))
  {
  }

  lemma RequiresEach(s: UpgradeState, i: nat)
    requires i < |KEYS|
    ensures var v := Values(s)[i];
            var r := RequireMember(StateJson(s), KEYS[i]);
            if Plain(v) && v != "" then r == Ok(v) else r.Err?
  {
    hide ObjectMember, StateJson, Plain;
    ReadsEach(s, i);
  }

  /** A state that is written reads back as itself if it is storable, and not at all otherwise. */
  lemma StateRoundTrip(s: UpgradeState)
    ensures if Storable(s) then StateFromJson(StateJson(s)) == Ok(s) else StateFromJson(StateJson(s)).Err?
  {
    hide RequireMember, ObjectMember, StateJson, Plain, StateFromName, StateName;
    forall i: nat | i < 10 ensures var r := RequireMember(StateJson(s), KEYS[i]);
                                   var v := Values(s)[i];
                                   if Plain(v) && v != "" then r == Ok(v) else r.Err?
    {
      RequiresEach(s, i);
    }
    ReadsEach(s, 10);
    ReadsEach(s, 11);
    NamesAreRead(s.state);
  }
}
