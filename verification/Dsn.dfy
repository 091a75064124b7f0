/**
 The PostgreSQL connection string: values are quoted when it is built, and a reader of keyword/value
 connection strings gets the same settings back.
 */
module Dsn {
  import opened Options
  import opened GoStrings
  import opened Decimals

  // ---------------------------------------------------------------------------------------------
  // Building.
  // ---------------------------------------------------------------------------------------------

  // strings.ReplaceAll of a single character
  function ReplaceAll(s: string, c: char, with: string): string {
    if s == "" then "" else (if s[0] == c then with else [s[0]]) + ReplaceAll(s[1..], c, with)
  }

  function PqEscape(value: string): string {
    "'" + ReplaceAll(ReplaceAll(value, '\\', "\\\\"), '\'', "\\'") + "'"
  }

  datatype Params = Params(host: string, port: int, user: string, password: string, database: string)

  function DatabaseName(p: Params): string {
    if p.database == "" then "postgres" else p.database
  }

  function BuildDsn(p: Params): string {
    Join(["host=" + PqEscape(p.host),
          "port=" + IntText(p.port),
          "user=" + PqEscape(p.user),
          "password=" + PqEscape(p.password),
          "dbname=" + PqEscape(DatabaseName(p)),
          "sslmode=disable"], ' ')
  }

  // ---------------------------------------------------------------------------------------------
  // Reading: section 34.1.1.1 of the PostgreSQL 16 documentation.
  // ---------------------------------------------------------------------------------------------

  datatype Setting = Setting(key: string, value: string)

  predicate IsBlank(c: char) {
    c == ' ' || '\t' <= c <= '\r'
  }

  function SkipBlanks(s: string): (r: string)
    ensures |r| <= |s|
  {
    if s != "" && IsBlank(s[0]) then SkipBlanks(s[1..]) else s
  }

  // A keyword: up to a blank or an equals sign.
  function ReadKey(s: string): (r: (string, string))
    ensures |r.1| <= |s|
  {
    if s == "" || s[0] == '=' || IsBlank(s[0]) then ("", s)
    else
      var (k, rest) := ReadKey(s[1..]);
      ([s[0]] + k, rest)
  }

  // The rest of a quoted value: a backslash makes the next character literal.
  function ReadQuoted(s: string): (r: Option<(string, string)>)
    ensures r.Some? ==> |r.value.1| < |s|
    decreases |s|
  {
    if s == "" then None
    else if s[0] == '\'' then Some(("", s[1..]))
    else if s[0] == '\\' && |s| == 1 then None
    else
      var skip := if s[0] == '\\' then 1 else 0;
      match ReadQuoted(s[skip + 1..])
      case None => None
      case Some((v, rest)) => Some(([s[skip]] + v, rest))
  }

  // An unquoted value: up to a blank, with the same escapes.
  function ReadPlain(s: string): (r: (string, string))
    ensures |r.1| <= |s|
    decreases |s|
  {
    if s == "" || IsBlank(s[0]) then ("", s)
    else if s[0] == '\\' && |s| == 1 then ("", "")
    else
      var skip := if s[0] == '\\' then 1 else 0;
      var (v, rest) := ReadPlain(s[skip + 1..]);
      ([s[skip]] + v, rest)
  }

  function ReadValue(s: string): (r: Option<(string, string)>)
    ensures r.Some? ==> |r.value.1| <= |s|
  {
    if s != "" && s[0] == '\'' then ReadQuoted(s[1..]) else Some(ReadPlain(s))
  }

  function Read(text: string): Option<seq<Setting>>
    decreases |text|
  {
    var s := SkipBlanks(text);
    if s == "" then Some([])
    else
      var (key, afterKey) := ReadKey(s);
      var sign := SkipBlanks(afterKey);
      if sign == "" || sign[0] != '=' then None
      else
        match ReadValue(SkipBlanks(sign[1..]))
        case None => None
        case Some((value, rest)) =>
          match Read(rest)
          case None => None
          case Some(more) => Some([Setting(key, value)] + more)
  }

  // ---------------------------------------------------------------------------------------------
  // Round trip.
  // ---------------------------------------------------------------------------------------------

  // One pass over the value that puts a backslash before every quote and every backslash.
  function EscapeEach(v: string): string {
    if v == "" then ""
    else (if v[0] == '\'' || v[0] == '\\' then ['\\', v[0]] else [v[0]]) + EscapeEach(v[1..])
  }

  lemma {:induction false} ReplaceAppend(a: string, b: string, c: char, with: string)
    ensures ReplaceAll(a + b, c, with) == ReplaceAll(a, c, with) + ReplaceAll(b, c, with)
  {
    if a == "" {
      assert a + b == b;
    } else {
      assert (a + b)[1..] == a[1..] + b;
      ReplaceAppend(a[1..], b, c, with);
    }
  }

  /** The two replacements, backslashes first, are the one-pass escape. */
  lemma {:induction false} TwoReplacementsEscape(v: string)
    ensures ReplaceAll(ReplaceAll(v, '\\', "\\\\"), '\'', "\\'") == EscapeEach(v)
  {
    if v != "" {
      TwoReplacementsEscape(v[1..]);
      var head := if v[0] == '\\' then "\\\\" else [v[0]];
      ReplaceAppend(head, ReplaceAll(v[1..], '\\', "\\\\"), '\'', "\\'");
      HeadEscapes(v[0]);
    }
  }

  lemma HeadEscapes(c: char)
    ensures ReplaceAll(if c == '\\' then "\\\\" else [c], '\'', "\\'") ==
            if c == '\'' || c == '\\' then ['\\', c] else [c]
  {
    assert [c][1..] == "";
    assert "\\\\"[1..] == "\\" && "\\"[1..] == "";
  }

  // One character of an escaped value, and what is read after it.
  lemma ReadQuotedStep(c: char, more: string)
    ensures var s := (if c == '\'' || c == '\\' then ['\\', c] else [c]) + more;
            ReadQuoted(s) == match ReadQuoted(more)
                             case None => None
                             case Some((v, rest)) => Some(([c] + v, rest))
  {
    var head := if c == '\'' || c == '\\' then ['\\', c] else [c];
    assert (head + more)[|head|..] == more;
  }

  lemma {:induction false} ReadQuotedEscape(v: string, rest: string)
    ensures ReadQuoted(EscapeEach(v) + ("'" + rest)) == Some((v, rest))
  {
    hide ReadQuoted;
    if v == "" {
      QuoteEnds(rest);
      assert EscapeEach(v) + ("'" + rest) == "'" + rest;
    } else {
      var head := if v[0] == '\'' || v[0] == '\\' then ['\\', v[0]] else [v[0]];
      var more := EscapeEach(v[1..]) + ("'" + rest);
      assert EscapeEach(v) + ("'" + rest) == head + more;
      ReadQuotedStep(v[0], more);
      ReadQuotedEscape(v[1..], rest);
      assert v == [v[0]] + v[1..];
    }
  }

  lemma QuoteEnds(rest: string)
    ensures ReadQuoted("'" + rest) == Some(("", rest))
  {
    assert ("'" + rest)[1..] == rest;
  }

  // Text that needs no quoting.
  predicate Plain(v: string) {
    v != "" && forall c | c in v :: !IsBlank(c) && c != '\'' && c != '\\' && c != '='
  }

  lemma {:induction false} ReadPlainIs(v: string, rest: string)
    requires forall c | c in v :: !IsBlank(c) && c != '\\'
    requires rest != "" ==> IsBlank(rest[0])
    ensures ReadPlain(v + rest) == (v, rest)
  {
    if v == "" {
      assert v + rest == rest;
    } else {
      assert (v + rest)[1..] == v[1..] + rest && v == [v[0]] + v[1..] && v[0] in v;
      ReadPlainIs(v[1..], rest);
    }
  }

  lemma {:induction false} ReadKeyIs(k: string, rest: string)
    requires forall c | c in k :: !IsBlank(c) && c != '='
    requires rest != "" && rest[0] == '='
    ensures ReadKey(k + rest) == (k, rest)
  {
    if k == "" {
      assert k + rest == rest;
    } else {
      assert (k + rest)[1..] == k[1..] + rest && k == [k[0]] + k[1..] && k[0] in k;
      ReadKeyIs(k[1..], rest);
    }
  }

  // How a setting may be written.
  predicate Writes(text: string, st: Setting) {
    && Plain(st.key)
    && (text == st.key + "=" + PqEscape(st.value) || (Plain(st.value) && text == st.key + "=" + st.value))
  }

  lemma ReadOne(text: string, st: Setting, rest: string)
    requires Writes(text, st) && (rest != "" ==> IsBlank(rest[0]))
    ensures Read(text + rest) ==
            match Read(rest)
            case None => None
            case Some(more) => Some([st] + more)
  {
    hide Read, PqEscape, Plain;
    var valueText := text[|st.key| + 1..];
    assert text == st.key + ("=" + valueText);
    assert text + rest == st.key + ("=" + (valueText + rest));
    assert valueText == PqEscape(st.value) || (Plain(st.value) && valueText == st.value);
    ReadParts(st.key, valueText, st.value, rest);
  }

  lemma ReadParts(key: string, valueText: string, value: string, rest: string)
    requires Plain(key) && (valueText == PqEscape(value) || (Plain(value) && valueText == value))
    requires rest != "" ==> IsBlank(rest[0])
    ensures Read(key + ("=" + (valueText + rest))) ==
            match Read(rest)
            case None => None
            case Some(more) => Some([Setting(key, value)] + more)
  {
    hide ReadValue, PqEscape, ReadPlain, ReadKey;
    var sign := "=" + (valueText + rest);
    var s := key + sign;
    assert s[0] in key;
    ReadKeyIs(key, sign);
    assert sign[1..] == valueText + rest;
    ReadValueIs(valueText, value, rest);
  }

  lemma ReadValueIs(valueText: string, value: string, rest: string)
    requires valueText == PqEscape(value) || (Plain(value) && valueText == value)
    requires rest != "" ==> IsBlank(rest[0])
    ensures SkipBlanks(valueText + rest) == valueText + rest
    ensures ReadValue(valueText + rest) == Some((value, rest))
  {
    var s := valueText + rest;
    if Plain(value) && valueText == value {
      assert s[0] in value;
      ReadPlainIs(value, rest);
    } else {
      TwoReplacementsEscape(value);
      assert s[1..] == EscapeEach(value) + ("'" + rest);
      ReadQuotedEscape(value, rest);
    }
  }

  /** Any list of settings, each quoted or plain and joined by spaces, reads back. */
  lemma {:induction false} ReadSettings(texts: seq<string>, settings: seq<Setting>)
    requires |texts| == |settings| >= 1
    requires forall i | 0 <= i < |texts| :: Writes(texts[i], settings[i])
    ensures Read(Join(texts, ' ')) == Some(settings)
  {
    hide Writes, ReadKey, ReadValue;
    if |texts| == 1 {
      ReadOne(texts[0], settings[0], "");
      assert texts[0] + "" == texts[0] && Read("") == Some([]);
      assert [settings[0]] + [] == settings;
    } else {
      var more := Join(texts[1..], ' ');
      ReadOne(texts[0], settings[0], " " + more);
      assert Join(texts, ' ') == texts[0] + (" " + more);
      ReadSkipsBlank(more);
      ReadSettings(texts[1..], settings[1..]);
      assert settings == [settings[0]] + settings[1..];
    }
  }

  lemma ReadSkipsBlank(s: string)
    ensures Read(" " + s) == Read(s)
  {
    assert (" " + s)[1..] == s;
    assert SkipBlanks(" " + s) == SkipBlanks(s);
  }

  /** For all strings and every port the connection string reads back as exactly its six settings, and the
      port's text denotes the port. */
  lemma DsnRoundTrip(p: Params)
    ensures Read(BuildDsn(p)) ==
            Some([Setting("host", p.host), Setting("port", IntText(p.port)), Setting("user", p.user),
                  Setting("password", p.password),
                  Setting("dbname", if p.database == "" then "postgres" else p.database),
                  Setting("sslmode", "disable")])
    ensures IntOf(IntText(p.port)) == p.port
  {
    hide PqEscape, Read, Join, Plain, Writes, IntText;
    IntTextDenotes(p.port);
    PlainWords(p.port);
    var settings := [Setting("host", p.host), Setting("port", IntText(p.port)), Setting("user", p.user),
                     Setting("password", p.password), Setting("dbname", DatabaseName(p)),
                     Setting("sslmode", "disable")];
    var texts := ["host=" + PqEscape(p.host), "port=" + IntText(p.port), "user=" + PqEscape(p.user),
                  "password=" + PqEscape(p.password), "dbname=" + PqEscape(DatabaseName(p)),
                  "sslmode=" + "disable"];
    assert "sslmode=" + "disable" == "sslmode=disable";
    assert Writes(texts[0], settings[0]) by { WritesSetting("host", "host=", p.host); }
    assert Writes(texts[1], settings[1]) by { WritesSetting("port", "port=", IntText(p.port)); }
    assert Writes(texts[2], settings[2]) by { WritesSetting("user", "user=", p.user); }
    assert Writes(texts[3], settings[3]) by { WritesSetting("password", "password=", p.password); }
    assert Writes(texts[4], settings[4]) by { WritesSetting("dbname", "dbname=", DatabaseName(p)); }
    assert Writes(texts[5], settings[5]) by { WritesSetting("sslmode", "sslmode=", "disable"); }
    ReadSettings(texts, settings);
  }

  lemma WritesSetting(key: string, prefix: string, value: string)
    requires Plain(key) && prefix == key + "="
    ensures Writes(prefix + PqEscape(value), Setting(key, value))
    ensures Plain(value) ==> Writes(prefix + value, Setting(key, value))
  {
    hide PqEscape, Plain;
  }

  lemma PlainWords(port: int)
    ensures Plain("host") && Plain("port") && Plain("user") && Plain("password") && Plain("dbname")
    ensures Plain("sslmode") && Plain("disable") && Plain(IntText(port))
  {
    hide IntText;
  }
}
