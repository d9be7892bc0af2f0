/** YAML scalars in a report's front matter: printed by src/engine/recovery_report.cpp,
    read by src/server/http_server.cpp. */
module YamlScalars {

  // ---- printing -----------------------------------------------------------------------------

  predicate IsLineBreak(c: char) { c == '\n' || c == '\r' }

  function Flat(c: char): char { if IsLineBreak(c) then ' ' else c }

  /** The text with every line break turned into a space. */
  function Flattened(s: string): string
  {
    seq(|s|, i requires 0 <= i < |s| => Flat(s[i]))
  }

  function EscapedChar(c: char): string
  {
    (if c == '\\' || c == '"' then "\\" else "") + [Flat(c)]
  }

  function Escaped(s: string): string
  {
    if s == "" then "" else Escaped(s[..|s| - 1]) + EscapedChar(s[|s| - 1])
  }

  function Printed(s: string): string { "\"" + Escaped(s) + "\"" }

  method YamlString(value: string) returns (out: string)
    ensures out == Printed(value)
  {
    if value == "" {
      return "\"\"";
    }
    out := "\"";
    for k := 0 to |value|
      invariant out == "\"" + Escaped(value[..k])
    {
      assert value[..k + 1][..k] == value[..k];
      var c := value[k];
      if c == '\\' || c == '"' { out := out + ['\\']; }
      if c == '\n' || c == '\r' { out := out + " "; } else { out := out + [c]; }
    }
    assert value[..|value|] == value;
    out := out + "\"";
  }

  function PrintedNullable(s: string): string { if s == "" then "null" else Printed(s) }

  method YamlNullableString(value: string) returns (out: string)
    ensures out == PrintedNullable(value)
  {
    if value == "" {
      return "null";
    }
    out := YamlString(value);
  }

  // ---- reading --------------------------------------------------------------------------------

  predicate IsBlank(c: char) { c == ' ' || c == '\t' || c == '\r' || c == '\n' }

  predicate Blank(s: string)
  {
    forall i :: 0 <= i < |s| ==> IsBlank(s[i])
  }

  function TrimmedLeft(s: string): string
  {
    if s != "" && IsBlank(s[0]) then TrimmedLeft(s[1..]) else s
  }

  function TrimmedRight(s: string): string
  {
    if s != "" && IsBlank(s[|s| - 1]) then TrimmedRight(s[..|s| - 1]) else s
  }

  function Trimmed(s: string): string { TrimmedRight(TrimmedLeft(s)) }

  method TrimCopy(value: string) returns (r: string)
    ensures r == Trimmed(value)
  {
    var begin := 0;
    while begin < |value| && IsBlank(value[begin])
      invariant begin <= |value| && TrimmedLeft(value[begin..]) == TrimmedLeft(value)
    {
      begin := begin + 1;
    }
    var rest := value[begin..];
    assert TrimmedLeft(value) == rest;
    var end := |rest|;
    assert rest[..end] == rest;
    while end > 0 && IsBlank(rest[end - 1])
      invariant 0 <= end <= |rest| && TrimmedRight(rest[..end]) == TrimmedRight(rest)
    {
      assert rest[..end][..end - 1] == rest[..end - 1];
      end := end - 1;
    }
    r := rest[..end];
  }

  /** The text between double quotes: a backslash stands for the character after it. */
  function Unescaped(s: string): string
  {
    if s == "" then ""
    else if s[0] == '\\' && |s| > 1 then [s[1]] + Unescaped(s[2..])
    else [s[0]] + Unescaped(s[1..])
  }

  predicate Within(s: string, quote: char)
  {
    |s| >= 2 && s[0] == quote && s[|s| - 1] == quote
  }

  function Read(value: string): string
  {
    var s := Trimmed(value);
    if s == "null" || s == "~" then ""
    else if Within(s, '"') then Unescaped(s[1..|s| - 1])
    else if Within(s, '\'') then s[1..|s| - 1]
    else s
  }

  method YamlScalarToString(value0: string) returns (r: string)
    ensures r == Read(value0)
  {
    var value := TrimCopy(value0);
    if value == "null" || value == "~" {
      return "";
    }
    if |value| >= 2 && value[0] == '"' && value[|value| - 1] == '"' {
      var out := "";
      var i := 1;
      ghost var inside := value[1..|value| - 1];
      while i + 1 < |value|
        invariant 1 <= i < |value|
        invariant out + Unescaped(inside[i - 1..]) == Unescaped(inside)
      {
        ghost var left := inside[i - 1..];
        if value[i] == '\\' && i + 2 < |value| {
          assert left[2..] == inside[i + 1..];
          i := i + 1;
        } else {
          assert left[1..] == inside[i..];
        }
        out := out + [value[i]];
        i := i + 1;
      }
      return out;
    }
    if |value| >= 2 && value[0] == '\'' && value[|value| - 1] == '\'' {
      return value[1..|value| - 1];
    }
    r := value;
  }

  // ---- reading back what was printed -----------------------------------------------------------

  lemma {:induction false} UnescapedFront(c: char, rest: string)
    ensures Unescaped(EscapedChar(c) + rest) == [Flat(c)] + Unescaped(rest)
  {
    var s := EscapedChar(c) + rest;
    if c == '\\' || c == '"' {
      assert s[2..] == rest;
    } else {
      assert s[1..] == rest;
    }
  }

  lemma {:induction false} EscapedBack(s: string, rest: string)
    ensures Unescaped(Escaped(s) + rest) == Flattened(s) + Unescaped(rest)
  {
    if s == "" {
      assert Escaped(s) + rest == rest;
    } else {
      var front, c := s[..|s| - 1], s[|s| - 1];
      assert Escaped(s) + rest == Escaped(front) + (EscapedChar(c) + rest);
      EscapedBack(front, EscapedChar(c) + rest);
      UnescapedFront(c, rest);
      assert Flattened(s) == Flattened(front) + [Flat(c)];
    }
  }

  lemma {:induction false} BlankLeft(before: string, s: string)
    requires Blank(before) && (s == "" || !IsBlank(s[0]))
    ensures TrimmedLeft(before + s) == s
  {
    if before == "" {
      assert before + s == s;
    } else {
      assert (before + s)[1..] == before[1..] + s;
      BlankLeft(before[1..], s);
    }
  }

  lemma {:induction false} BlankRight(s: string, after: string)
    requires Blank(after) && (s == "" || !IsBlank(s[|s| - 1]))
    ensures TrimmedRight(s + after) == s
  {
    if after == "" {
      assert s + after == s;
    } else {
      assert (s + after)[..|s + after| - 1] == s + after[..|after| - 1];
      BlankRight(s, after[..|after| - 1]);
    }
  }

  lemma TrimmedText(before: string, s: string, after: string)
    requires Blank(before) && Blank(after) && s != "" && !IsBlank(s[0]) && !IsBlank(s[|s| - 1])
    ensures Trimmed(before + s + after) == s
  {
    assert before + s + after == before + (s + after);
    BlankLeft(before, s + after);
    BlankRight(s, after);
  }

  /** A printed scalar reads back as the text itself, each line break a space, whatever
      blanks stand around it and whatever the text: backslashes, quotes and the word
      null included. */
  lemma PrintedReadsBack(s: string, before: string, after: string)
    requires Blank(before) && Blank(after)
    ensures Read(before + Printed(s) + after) == Flattened(s)
    ensures Read(before + PrintedNullable(s) + after) == Flattened(s)
  {
    hide Trimmed, Escaped, Unescaped;
    var p := Printed(s);
    TrimmedText(before, p, after);
    assert p[0] == '"' && p[|p| - 1] == '"' && p[1..|p| - 1] == Escaped(s);
    EscapedBack(s, "");
    assert Escaped(s) + "" == Escaped(s) && Flattened(s) + "" == Flattened(s);
    EmptyBack();
    if s == "" {
      TrimmedText(before, "null", after);
    }
  }

  lemma EmptyBack()
    ensures Unescaped("") == "" && Flattened("") == ""
  {
  }

  /** So a text comes back unchanged exactly when it has no line break. */
  lemma UnchangedWithoutLineBreaks(s: string)
    ensures Read(Printed(s)) == s <==> forall i :: 0 <= i < |s| ==> !IsLineBreak(s[i])
  {
    hide Read, Printed;
    PrintedReadsBack(s, "", "");
    assert "" + Printed(s) + "" == Printed(s);
    if Flattened(s) == s {
      forall i | 0 <= i < |s| ensures !IsLineBreak(s[i]) {
        assert Flattened(s)[i] == s[i];
      }
    }
  }

  /** A printed scalar stays on its line of the front matter. */
  lemma {:induction false} PrintedIsOneLine(s: string)
    ensures forall i :: 0 <= i < |Escaped(s)| ==> !IsLineBreak(Escaped(s)[i])
    ensures forall i :: 0 <= i < |Printed(s)| ==> !IsLineBreak(Printed(s)[i])
  {
    if s != "" {
      PrintedIsOneLine(s[..|s| - 1]);
    }
  }
}
