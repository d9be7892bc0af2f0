/** Text cut at a separator, empty fields dropped: the branch list of
    src/handlers/fan_in_handler.cpp and the dotted paths of src/config/needle_config.cpp. */
module Separated {

  /** The fields finished so far and the one being read. */
  datatype Cut = Cut(fields: seq<string>, open: string)

  function Finished(c: Cut): seq<string>
  {
    if c.open == "" then c.fields else c.fields + [c.open]
  }

  function CutAt(s: string, separator: char): Cut
  {
    if s == "" then Cut([], "")
    else
      var before, c := CutAt(s[..|s| - 1], separator), s[|s| - 1];
      if c == separator then Cut(Finished(before), "") else Cut(before.fields, before.open + [c])
  }

  function Fields(s: string, separator: char): seq<string>
  {
    Finished(CutAt(s, separator))
  }

  function Joined(fields: seq<string>, separator: char): string
  {
    if fields == [] then ""
    else
      var front := Joined(fields[..|fields| - 1], separator);
      (if front == "" then "" else front + [separator]) + fields[|fields| - 1]
  }

  method SplitFields(s: string, separator: char) returns (fields: seq<string>)
    ensures fields == Fields(s, separator)
  {
    fields := [];
    var segment := "";
    for k := 0 to |s|
      invariant Cut(fields, segment) == CutAt(s[..k], separator)
    {
      assert s[..k + 1][..k] == s[..k];
      if s[k] == separator {
        if segment != "" {
          fields := fields + [segment];
          segment := "";
        }
      } else {
        segment := segment + [s[k]];
      }
    }
    assert s[..|s|] == s;
    if segment != "" {
      fields := fields + [segment];
    }
  }

  lemma {:induction false} CutAppend(s: string, t: string, separator: char)
    requires separator !in t
    ensures CutAt(s + t, separator) == Cut(CutAt(s, separator).fields, CutAt(s, separator).open + t)
  {
    if t == "" {
      assert s + t == s;
    } else {
      assert (s + t)[..|s + t| - 1] == s + t[..|t| - 1];
      assert (s + t)[|s + t| - 1] == t[|t| - 1];
      assert separator !in t[..|t| - 1];
      CutAppend(s, t[..|t| - 1], separator);
      assert t == t[..|t| - 1] + [t[|t| - 1]];
    }
  }

  /** A field that a text can be cut into. */
  predicate Plain(field: string, separator: char)
  {
    field != "" && separator !in field
  }

  function NonEmpty(fields: seq<string>): seq<string>
  {
    if fields == [] then []
    else
      var last := fields[|fields| - 1];
      NonEmpty(fields[..|fields| - 1]) + if last == "" then [] else [last]
  }

  /** Joined fields without separators come back, the empty ones dropped. */
  lemma {:induction false} NonEmptyFieldsBack(fields: seq<string>, separator: char)
    requires forall i :: 0 <= i < |fields| ==> separator !in fields[i]
    ensures Fields(Joined(fields, separator), separator) == NonEmpty(fields)
  {
    if fields != [] {
      var front, last := fields[..|fields| - 1], fields[|fields| - 1];
      var text := Joined(front, separator);
      NonEmptyFieldsBack(front, separator);
      assert separator !in last && "" + last == last;
      if text == "" {
        CutAppend("", last, separator);
      } else {
        var cut := text + [separator];
        assert cut[..|text|] == text && cut[|text|] == separator;
        assert CutAt(cut, separator) == Cut(NonEmpty(front), "");
        CutAppend(cut, last, separator);
        assert Joined(fields, separator) == cut + last;
      }
    }
  }

  lemma {:induction false} AllNonEmpty(fields: seq<string>)
    requires forall i :: 0 <= i < |fields| ==> fields[i] != ""
    ensures NonEmpty(fields) == fields
  {
    if fields != [] {
      AllNonEmpty(fields[..|fields| - 1]);
    }
  }

  lemma {:induction false} CutIsPlain(s: string, separator: char)
    ensures var c := CutAt(s, separator);
            separator !in c.open && forall i :: 0 <= i < |c.fields| ==> Plain(c.fields[i], separator)
  {
    if s != "" {
      CutIsPlain(s[..|s| - 1], separator);
    }
  }

  /** Cutting undoes joining exactly when no field is empty or contains the separator. */
  lemma FieldsOfJoined(fields: seq<string>, separator: char)
    ensures Fields(Joined(fields, separator), separator) == fields
            <==> forall i :: 0 <= i < |fields| ==> Plain(fields[i], separator)
  {
    CutIsPlain(Joined(fields, separator), separator);
    if forall i :: 0 <= i < |fields| ==> Plain(fields[i], separator) {
      NonEmptyFieldsBack(fields, separator);
      AllNonEmpty(fields);
    }
  }
}
