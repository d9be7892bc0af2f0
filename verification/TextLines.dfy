/** Lists of names as lines of text: how src/engine/troubleshoot_backup.cpp reads git's
    output and keeps its session files. */
module TextLines {

  function Written(lines: seq<string>): string
  {
    if lines == [] then "" else Written(lines[..|lines| - 1]) + lines[|lines| - 1] + "\n"
  }

  function DropReturn(s: string): string
  {
    if s != "" && s[|s| - 1] == '\r' then s[..|s| - 1] else s
  }

  function WithLine(lines: seq<string>, line: string): seq<string>
  {
    if line == "" then lines else lines + [line]
  }

  /** The lines finished so far and the one being read. */
  datatype Reading = Reading(lines: seq<string>, open: string)

  function ReadTo(s: string): Reading
  {
    if s == "" then Reading([], "")
    else
      var before, c := ReadTo(s[..|s| - 1]), s[|s| - 1];
      if c == '\n' then Reading(WithLine(before.lines, DropReturn(before.open)), "")
      else Reading(before.lines, before.open + [c])
  }

  /** split_lines: an unfinished last line counts, even if only a return is left of it. */
  function Split(s: string): seq<string>
  {
    var r := ReadTo(s);
    if r.open == "" then r.lines else r.lines + [DropReturn(r.open)]
  }

  /** read_lines: empty lines never count. */
  function Lines(s: string): seq<string>
  {
    var r := ReadTo(s);
    WithLine(r.lines, DropReturn(r.open))
  }

  /** What precedes the first line break. */
  function FirstLine(s: string): string
  {
    DropReturn(UpToBreak(s))
  }

  function UpToBreak(s: string): string
  {
    if s == "" || s[0] == '\n' then "" else [s[0]] + UpToBreak(s[1..])
  }

  /** Trailing line breaks, as they are stripped from a command's output. */
  function Stripped(s: string): string
  {
    if s != "" && (s[|s| - 1] == '\n' || s[|s| - 1] == '\r') then Stripped(s[..|s| - 1]) else s
  }

  method SplitLines(text: string) returns (out: seq<string>)
    ensures out == Split(text)
  {
    out := [];
    var acc := "";
    for k := 0 to |text|
      invariant Reading(out, acc) == ReadTo(text[..k])
    {
      assert text[..k + 1][..k] == text[..k];
      var c := text[k];
      if c == '\n' {
        if acc != "" && acc[|acc| - 1] == '\r' { acc := acc[..|acc| - 1]; }
        if acc != "" { out := out + [acc]; }
        acc := "";
      } else {
        acc := acc + [c];
      }
    }
    assert text[..|text|] == text;
    if acc != "" {
      if acc[|acc| - 1] == '\r' { acc := acc[..|acc| - 1]; }
      out := out + [acc];
    }
  }

  method WriteText(lines: seq<string>) returns (text: string)
    ensures text == Written(lines)
  {
    text := "";
    for k := 0 to |lines|
      invariant text == Written(lines[..k])
    {
      assert lines[..k + 1][..k] == lines[..k];
      text := text + lines[k] + "\n";
    }
    assert lines[..|lines|] == lines;
  }

  // ---- reading back ------------------------------------------------------------------------

  /** A name that makes a line of its own. */
  predicate Plain(name: string)
  {
    name != "" && '\n' !in name && name[|name| - 1] != '\r'
  }

  ghost predicate AllPlain(names: seq<string>)
  {
    forall i :: 0 <= i < |names| ==> Plain(names[i])
  }

  lemma {:induction false} ReadAppend(s: string, t: string)
    requires '\n' !in t
    ensures ReadTo(s + t) == Reading(ReadTo(s).lines, ReadTo(s).open + t)
  {
    if t == "" {
      assert s + t == s;
    } else {
      assert (s + t)[..|s + t| - 1] == s + t[..|t| - 1];
      ReadAppend(s, t[..|t| - 1]);
      assert t == t[..|t| - 1] + [t[|t| - 1]];
    }
  }

  lemma {:induction false} ReadWritten(lines: seq<string>)
    requires AllPlain(lines)
    ensures ReadTo(Written(lines)) == Reading(lines, "")
  {
    if lines != [] {
      var front, last := lines[..|lines| - 1], lines[|lines| - 1];
      ReadWritten(front);
      ReadAppend(Written(front), last);
      assert Plain(last) && lines == front + [last];
      ReadBreak(Written(front) + last);
      assert "" + last == last;
    }
  }

  lemma ReadBreak(s: string)
    ensures ReadTo(s + "\n") == Reading(WithLine(ReadTo(s).lines, DropReturn(ReadTo(s).open)), "")
  {
    assert (s + "\n")[..|s|] == s;
  }

  /** A list of plain names survives a session file. */
  lemma LinesBack(names: seq<string>)
    requires AllPlain(names)
    ensures Lines(Written(names)) == names
  {
    ReadWritten(names);
  }

  /** ... and a command's output, whose last line break is stripped. */
  lemma SplitBack(names: seq<string>)
    requires AllPlain(names)
    ensures Split(Stripped(Written(names))) == names
  {
    hide ReadTo;
    if names == [] {
      ReadWritten(names);
    } else {
      var front, last := names[..|names| - 1], names[|names| - 1];
      assert Plain(last) && names == front + [last] && "" + last == last;
      StripOne(Written(front), last);
      ReadWritten(front);
      ReadAppend(Written(front), last);
    }
  }

  lemma StripOne(s: string, last: string)
    requires Plain(last)
    ensures Stripped(s + last + "\n") == s + last
  {
    var t := s + last;
    assert t[|t| - 1] == last[|last| - 1];
    assert last[|last| - 1] in last;
    assert (t + "\n")[..|t|] == t;
  }

  lemma {:induction false} UpToBreakOf(a: string, rest: string)
    requires '\n' !in a
    ensures UpToBreak(a + "\n" + rest) == a
  {
    if a == "" {
      assert ("" + "\n" + rest)[0] == '\n';
    } else {
      UpToBreakOf(a[1..], rest);
      assert (a + "\n" + rest)[1..] == a[1..] + "\n" + rest;
    }
  }

  lemma FirstLineBack(name: string)
    requires Plain(name)
    ensures FirstLine(Written([name])) == name
  {
    UpToBreakOf(name, "");
    assert [name][..0] == [];
    assert Written([name]) == name + "\n" + "";
  }
}
