/**
  The SIP header reader: a single pass over the message text that folds continuation lines
  (section 7.3.1 of RFC 3261) and keeps five named headers.
 */
module HeaderParser {
  import opened Common

  // ---------------------------------------------------------------------
  // Text operations
  // ---------------------------------------------------------------------

  function LowerChar(c: char): char {
    if 'A' <= c <= 'Z' then (c as int + 32) as char else c
  }

  function Lower(s: string): string { seq(|s|, i requires 0 <= i < |s| => LowerChar(s[i])) }

  /** `s.replace("\r\n", "\n")`. */
  function Normalize(s: string): string {
    if s == [] then []
    else if |s| >= 2 && s[0] == '\r' && s[1] == '\n' then ['\n'] + Normalize(s[2..])
    else [s[0]] + Normalize(s[1..])
  }

  /** `s.split("\n")`. */
  function Split(s: string): (r: seq<string>)
    ensures r != []
  {
    if s == [] then [[]]
    else if s[0] == '\n' then [[]] + Split(s[1..])
    else
      var r := Split(s[1..]);
      [[s[0]] + r[0]] + r[1..]
  }

  function Lines(raw: string): seq<string> { Split(Normalize(raw)) }

  /** Position of the first colon. */
  function FindColon(s: string): (r: Option<nat>)
    ensures r.Some? ==> r.value < |s|
  {
    if s == [] then None
    else if s[0] == ':' then Some(0)
    else
      match FindColon(s[1..])
      case None => None
      case Some(k) => Some(k + 1)
  }

  predicate StartsWith(s: string, p: string) { |p| <= |s| && s[..|p|] == p }

  predicate IsStartLine(line: string) {
    || StartsWith(line, "INVITE ") || StartsWith(line, "SIP/2.0 ") || StartsWith(line, "ACK ")
    || StartsWith(line, "BYE ") || StartsWith(line, "CANCEL ") || StartsWith(line, "OPTIONS ")
  }

  predicate IsContinuation(line: string) { line != [] && (line[0] == ' ' || line[0] == '\t') }

  /** `_HEADER_MAP.get(name.lower())`. */
  function Canonical(name: string): Option<string> {
    var n := Lower(name);
    if n == "x-vicidial-leadid" then Some("vici_lead_id")
    else if n == "x-vicidial-uniqueid" then Some("vici_uniqueid")
    else if n == "x-vicidial-campaign" then Some("vici_campaign")
    else if n == "x-vicidial-phone" then Some("vici_phone")
    else if n == "p-asserted-identity" then Some("p_asserted_identity")
    else None
  }

  // ---------------------------------------------------------------------
  // Two-pass specification: cut at the first empty line, unfold, then read each header on its own
  // ---------------------------------------------------------------------

  /** The lines before the first empty one. */
  function HeaderLines(lines: seq<string>): seq<string> {
    if lines == [] || lines[0] == [] then [] else [lines[0]] + HeaderLines(lines[1..])
  }

  /** A header line and the continuation lines that belong to it. */
  datatype Field = Field(head: string, folds: seq<string>)

  function Fields(lines: seq<string>): seq<Field> {
    if lines == [] then []
    else
      var before, line := Fields(lines[..|lines|-1]), lines[|lines|-1];
      if IsStartLine(line) then before
      else if !IsContinuation(line) then before + [Field(line, [])]
      else if before == [] then []
      else
        var f := before[|before|-1];
        before[..|before|-1] + [Field(f.head, f.folds + [line])]
  }

  /** The header as one line. */
  function Unfolded(head: string, folds: seq<string>): string {
    if folds == [] then head else Unfolded(head, folds[..|folds|-1]) + " " + Strip(folds[|folds|-1])
  }

  /** Name and value of a header: split at the first colon; a header line without one is malformed. */
  function Read(f: Field): Option<(string, string)> {
    match FindColon(f.head)
    case None => None
    case Some(k) =>
      var text := Unfolded(f.head, f.folds);
      match FindColon(text)
      case None => None
      case Some(j) => Some((Strip(text[..j]), text[j + 1..]))
  }

  /** The known header a field sets, and the value it gives it. */
  function Setting(f: Field): Option<(string, string)> {
    match Read(f)
    case None => None
    case Some((name, value)) =>
      match Canonical(name)
      case None => None
      case Some(key) => Some((key, Strip(value)))
  }

  function Meaning(fields: seq<Field>): map<string, string> {
    if fields == [] then map[]
    else
      var m := Meaning(fields[..|fields|-1]);
      match Setting(fields[|fields|-1])
      case None => m
      case Some((key, value)) => m[key := value]
  }

  function Parsed(raw: string): map<string, string> { Meaning(Fields(HeaderLines(Lines(raw)))) }

  ghost predicate Sets(f: Field, key: string) { Setting(f).Some? && Setting(f).value.0 == key }

  /** A key is in the result when some header sets it ... */
  lemma {:induction false} EveryHeaderCounts(fields: seq<Field>, i: nat)
    requires i < |fields| && Setting(fields[i]).Some?
    ensures Setting(fields[i]).value.0 in Meaning(fields)
  {
    hide Setting;
    if i < |fields| - 1 {
      EveryHeaderCounts(fields[..|fields|-1], i);
    }
  }

  /** ... and then with the value of the last header that sets it. */
  lemma {:induction false} LastOccurrenceCounts(fields: seq<Field>, key: string) returns (i: nat)
    requires key in Meaning(fields)
    ensures i < |fields| && Sets(fields[i], key) && Meaning(fields)[key] == Setting(fields[i]).value.1
    ensures forall j | i < j < |fields| :: !Sets(fields[j], key)
  {
    hide Setting;
    if Sets(fields[|fields|-1], key) {
      i := |fields| - 1;
    } else {
      i := LastOccurrenceCounts(fields[..|fields|-1], key);
    }
  }

  /** The continuation lines as they are appended to a header. */
  function FoldedText(folds: seq<string>): string {
    if folds == [] then "" else FoldedText(folds[..|folds|-1]) + (" " + Strip(folds[|folds|-1]))
  }

  lemma {:induction false} UnfoldedText(head: string, folds: seq<string>)
    ensures Unfolded(head, folds) == head + FoldedText(folds)
  {
    hide Strip;
    if folds == [] {
      assert head + "" == head;
    } else {
      UnfoldedText(head, folds[..|folds|-1]);
    }
  }

  /** A header line splits at its first colon. */
  ghost predicate Splits(head: string, name: string, rest: string) {
    head == name + [':'] + rest && ':' !in name
  }

  lemma {:induction false} ColonExactly(s: string)
    ensures FindColon(s).None? <==> ':' !in s
    ensures FindColon(s).Some? ==> Splits(s, s[..FindColon(s).value], s[FindColon(s).value + 1..])
  {
    if s != [] {
      ColonExactly(s[1..]);
      assert s == [s[0]] + s[1..];
      if s[0] != ':' && FindColon(s).Some? {
        var k := FindColon(s).value;
        assert s[..k] == [s[0]] + s[1..][..k - 1] && s[k + 1..] == s[1..][k..];
      }
    }
  }

  lemma {:induction false} FirstColon(name: string, rest: string)
    requires ':' !in name
    ensures FindColon(name + [':'] + rest) == Some(|name|)
  {
    var s := name + [':'] + rest;
    if name == [] {
      assert s[0] == ':';
    } else {
      assert name[0] in name && forall c <- name[1..] :: c in name;
      FirstColon(name[1..], rest);
      assert s[1..] == name[1..] + [':'] + rest;
    }
  }

  lemma {:induction false} SplitsOnce(s: string, name: string, rest: string)
    requires Splits(s, name, rest)
    ensures FindColon(s) == Some(|name|) && s[..|name|] == name && s[|name| + 1..] == rest
  {
    hide FindColon;
    FirstColon(name, rest);
  }

  /**
    What a header means: the part before the first colon, stripped, is a known name, and the value is the
    rest with the continuation lines, stripped. A line without a colon means nothing, whatever follows it.
   */
  lemma {:induction false} SettingExactly(f: Field, key: string, value: string)
    ensures Setting(f) == Some((key, value)) <==>
            exists name, rest :: && Splits(f.head, name, rest) && Canonical(Strip(name)) == Some(key)
                                 && value == Strip(rest + FoldedText(f.folds))
  {
    hide Strip, Canonical, FindColon, FoldedText, Unfolded;
    ColonExactly(f.head);
    UnfoldedText(f.head, f.folds);
    if FindColon(f.head).Some? {
      ColonOfUnfolded(f.head, f.folds);
      var k := FindColon(f.head).value;
      var name, rest := f.head[..k], f.head[k + 1..];
      assert (f.head + FoldedText(f.folds))[..k] == name;
      assert (f.head + FoldedText(f.folds))[k + 1..] == rest + FoldedText(f.folds);
      if n, r :| Splits(f.head, n, r) && Canonical(Strip(n)) == Some(key) && value == Strip(r + FoldedText(f.folds)) {
        SplitsOnce(f.head, n, r);
      }
      if Setting(f) == Some((key, value)) {
        assert Splits(f.head, name, rest) && Canonical(Strip(name)) == Some(key);
      }
    } else if n, r :| Splits(f.head, n, r) && Canonical(Strip(n)) == Some(key) && value == Strip(r + FoldedText(f.folds)) {
      SplitsOnce(f.head, n, r);
    }
  }

  /** The five known names, in any letter case, and what the worker calls them. */
  lemma {:induction false} KnownHeaders(name: string)
    ensures Lower(name) == "x-vicidial-leadid" ==> Canonical(name) == Some("vici_lead_id")
    ensures Lower(name) == "x-vicidial-uniqueid" ==> Canonical(name) == Some("vici_uniqueid")
    ensures Lower(name) == "x-vicidial-campaign" ==> Canonical(name) == Some("vici_campaign")
    ensures Lower(name) == "x-vicidial-phone" ==> Canonical(name) == Some("vici_phone")
    ensures Lower(name) == "p-asserted-identity" ==> Canonical(name) == Some("p_asserted_identity")
    ensures Canonical(name).Some? ==>
              Lower(name) in {"x-vicidial-leadid", "x-vicidial-uniqueid", "x-vicidial-campaign", "x-vicidial-phone", "p-asserted-identity"}
  {
    hide Lower;
    DifferentNames();
  }

  /** For example, names as dialers write them. */
  lemma {:induction false} KnownInAnyCase()
    ensures Canonical("X-VICIdial-LeadId") == Some("vici_lead_id")
    ensures Canonical("P-Asserted-Identity") == Some("p_asserted_identity")
  {
    var a, b := "X-VICIdial-LeadId", "P-Asserted-Identity";
    assert |Lower(a)| == 17 && |Lower(b)| == 19;
    assert Lower(a) == "x-vicidial-leadid";
    assert Lower(b) == "p-asserted-identity";
    hide Lower;
    KnownHeaders(a);
    KnownHeaders(b);
  }

  /** A line that begins like a request or a status line is passed over, wherever it stands. */
  lemma {:induction false} StartLineSkipped(lines: seq<string>, verb: string, rest: string)
    requires verb in {"INVITE ", "SIP/2.0 ", "ACK ", "BYE ", "CANCEL ", "OPTIONS "}
    ensures Fields(lines + [verb + rest]) == Fields(lines)
  {
    var line := verb + rest;
    assert line[..|verb|] == verb;
    assert IsStartLine(line);
    hide IsStartLine;
    assert (lines + [line])[..|lines + [line]|-1] == lines;
  }

  lemma {:induction false} DifferentNames()
    ensures "x-vicidial-uniqueid" != "x-vicidial-leadid"
    ensures "x-vicidial-campaign" != "x-vicidial-leadid" && "x-vicidial-campaign" != "x-vicidial-uniqueid"
    ensures "x-vicidial-phone" != "x-vicidial-leadid" && "x-vicidial-phone" != "x-vicidial-uniqueid"
    ensures "x-vicidial-phone" != "x-vicidial-campaign"
    ensures "p-asserted-identity" != "x-vicidial-leadid" && "p-asserted-identity" != "x-vicidial-uniqueid"
    ensures "p-asserted-identity" != "x-vicidial-campaign" && "p-asserted-identity" != "x-vicidial-phone"
  {
    assert "x-vicidial-uniqueid"[11] == 'u' && "x-vicidial-leadid"[11] == 'l';
    assert "x-vicidial-campaign"[11] == 'c' && "x-vicidial-phone"[11] == 'p';
    assert "p-asserted-identity"[0] == 'p' && "x-vicidial-leadid"[0] == 'x' && "x-vicidial-uniqueid"[0] == 'x';
    assert "x-vicidial-campaign"[0] == 'x' && "x-vicidial-phone"[0] == 'x';
  }

  // ---------------------------------------------------------------------
  // The one-pass parser
  // ---------------------------------------------------------------------

  lemma {:induction false} ColonStays(a: string, b: string)
    requires FindColon(a).Some?
    ensures FindColon(a + b) == FindColon(a) && FindColon(a).value < |a|
  {
    assert (a + b)[1..] == a[1..] + b;
    if a[0] != ':' {
      ColonStays(a[1..], b);
    }
  }

  lemma {:induction false} ColonOfUnfolded(head: string, folds: seq<string>)
    requires FindColon(head).Some?
    ensures FindColon(Unfolded(head, folds)) == FindColon(head)
    ensures FindColon(head).value < |head| <= |Unfolded(head, folds)|
    ensures Unfolded(head, folds)[..|head|] == head
  {
    ColonStays(head, "");
    assert head + "" == head;
    if folds != [] {
      var init := folds[..|folds|-1];
      ColonOfUnfolded(head, init);
      ColonStays(Unfolded(head, init), " " + Strip(folds[|folds|-1]));
      assert Unfolded(head, folds) == Unfolded(head, init) + (" " + Strip(folds[|folds|-1]));
    }
  }

  function ReadLast(fields: seq<Field>): Option<(string, string)> {
    if fields == [] then None else Read(fields[|fields|-1])
  }

  /** What `pending_name` and `pending_value` stand for: the last field so far, if it is not malformed. */
  function Pending(name: Option<string>, value: string): Option<(string, string)> {
    match name
    case None => None
    case Some(n) => Some((n, value))
  }

  /** The meaning of all fields but a pending last one. */
  function MeaningBefore(fields: seq<Field>): map<string, string> {
    Meaning(if ReadLast(fields).None? then fields else fields[..|fields|-1])
  }

  lemma {:induction false} MalformedMeansNothing(fields: seq<Field>)
    requires fields != [] && ReadLast(fields).None?
    ensures Meaning(fields) == Meaning(fields[..|fields|-1])
  {
  }

  /** `_flush`. */
  method Flush(out: map<string, string>, name: Option<string>, value: string, ghost fields: seq<Field>)
    returns (out': map<string, string>)
    requires Pending(name, value) == ReadLast(fields) && out == MeaningBefore(fields)
    ensures out' == Meaning(fields)
  {
    out' := out;
    if name.None? {
      return;
    }
    var canonical := Canonical(name.value);
    if canonical.Some? {
      out' := out'[canonical.value := Strip(value)];
    }
  }

  /** A continuation line extends the pending value exactly as it extends the unfolded header. */
  lemma {:induction false} Continue(fields: seq<Field>, line: string)
    requires fields != []
    ensures var f := fields[|fields|-1];
            var fields' := fields[..|fields|-1] + [Field(f.head, f.folds + [line])];
            && MeaningBefore(fields') == MeaningBefore(fields)
            && ReadLast(fields') == match ReadLast(fields)
                                    case None => None
                                    case Some((n, v)) => Some((n, v + " " + Strip(line)))
  {
    var f := fields[|fields|-1];
    var fields' := fields[..|fields|-1] + [Field(f.head, f.folds + [line])];
    assert fields'[..|fields'|-1] == fields[..|fields|-1];
    ContinueRead(f, line);
    hide Read;
    if Read(f).None? {
      MalformedMeansNothing(fields);
      MalformedMeansNothing(fields');
    }
  }

  lemma {:induction false} ContinueRead(f: Field, line: string)
    ensures Read(Field(f.head, f.folds + [line])) == match Read(f)
                                                     case None => None
                                                     case Some((n, v)) => Some((n, v + " " + Strip(line)))
  {
    hide FindColon, Strip;
    assert (f.folds + [line])[..|f.folds + [line]|-1] == f.folds;
    assert Unfolded(f.head, f.folds + [line]) == Unfolded(f.head, f.folds) + " " + Strip(line);
    hide Unfolded;
    if FindColon(f.head).Some? {
      ColonOfUnfolded(f.head, f.folds);
      ColonOfUnfolded(f.head, f.folds + [line]);
      ExtendAfter(Unfolded(f.head, f.folds), Strip(line), FindColon(f.head).value);
    }
  }

  lemma {:induction false} ExtendAfter(a: string, b: string, k: nat)
    requires k < |a|
    ensures (a + " " + b)[..k] == a[..k]
    ensures (a + " " + b)[k + 1..] == a[k + 1..] + " " + b
  {
  }

  /** A new header line becomes the pending field. */
  lemma {:induction false} StartField(fields: seq<Field>, line: string)
    ensures var fields' := fields + [Field(line, [])];
            && MeaningBefore(fields') == Meaning(fields)
            && ReadLast(fields') == match FindColon(line)
                                    case None => None
                                    case Some(k) => Some((Strip(line[..k]), line[k + 1..]))
  {
    var fields' := fields + [Field(line, [])];
    assert fields'[..|fields'|-1] == fields;
    if FindColon(line).None? {
      MalformedMeansNothing(fields');
    }
  }

  lemma {:induction false} CutHere(lines: seq<string>, i: nat)
    requires i <= |lines| && (forall j | 0 <= j < i :: lines[j] != []) && (i < |lines| ==> lines[i] == [])
    ensures HeaderLines(lines) == lines[..i]
  {
    if i > 0 {
      CutHere(lines[1..], i - 1);
      assert lines[..i] == [lines[0]] + lines[1..][..i - 1];
    }
  }

  /** `pending_value += " " + raw_line.strip()`. */
  function Folded(value: string, line: string): string { value + " " + Strip(line) }

  /** `raw_line.partition(":")`, with the name stripped. */
  function Partition(line: string): Option<(string, string)> {
    match FindColon(line)
    case None => None
    case Some(k) => Some((Strip(line[..k]), line[k + 1..]))
  }

  function FieldsUpTo(lines: seq<string>, i: nat): seq<Field>
    requires i <= |lines|
  {
    Fields(lines[..i])
  }

  /** The single pass computes the two-pass meaning, on every message. */
  method ParseHeaders(raw: string) returns (out: map<string, string>)
    ensures out == Parsed(raw)
  {
    hide *;
    out := map[];
    if raw == "" {
      EmptyMessage();
      return;
    }
    var lines := Lines(raw);
    var name: Option<string> := None;
    var value := "";
    Start(lines);
    var i := 0;
    while i < |lines|
      invariant i <= |lines| && (forall j | 0 <= j < i :: lines[j] != [])
      invariant Pending(name, value) == ReadLast(FieldsUpTo(lines, i))
      invariant out == MeaningBefore(FieldsUpTo(lines, i))
    {
      var line := lines[i];
      if line == "" {
        break;
      }
      NextField(lines, i);
      NextPending(name, value, line);
      i := i + 1;
      if IsStartLine(line) {
        continue;
      }
      if IsContinuation(line) {
        if name.Some? {
          value := Folded(value, line);
        }
        continue;
      }
      out := Flush(out, name, value, FieldsUpTo(lines, i - 1));
      name, value := None, "";
      var parts := Partition(line);
      if parts.None? {
        continue;
      }
      name, value := Some(parts.value.0), parts.value.1;
    }
    Ending(raw, lines, i);
    out := Flush(out, name, value, FieldsUpTo(lines, i));
  }

  lemma {:induction false} Start(lines: seq<string>)
    ensures ReadLast(FieldsUpTo(lines, 0)) == None == Pending(None, "")
    ensures MeaningBefore(FieldsUpTo(lines, 0)) == map[]
  {
  }

  lemma {:induction false} EmptyMessage()
    ensures Parsed("") == map[]
  {
    assert Lines("") == [[]] && HeaderLines([[]]) == [];
  }

  lemma {:induction false} Ending(raw: string, lines: seq<string>, i: nat)
    requires lines == Lines(raw)
    requires i <= |lines| && (forall j | 0 <= j < i :: lines[j] != []) && (i < |lines| ==> lines[i] == [])
    ensures Meaning(FieldsUpTo(lines, i)) == Parsed(raw)
  {
    CutHere(lines, i);
  }

  function FoldedPending(pending: Option<(string, string)>, line: string): Option<(string, string)> {
    match pending
    case None => None
    case Some((n, v)) => Some((n, Folded(v, line)))
  }

  lemma {:induction false} NextPending(name: Option<string>, value: string, line: string)
    ensures Pending(name, if name.None? then value else Folded(value, line)) == FoldedPending(Pending(name, value), line)
    ensures Pending(None, "") == None
    ensures Partition(line).Some? ==>
              Pending(Some(Partition(line).value.0), Partition(line).value.1) == Partition(line)
  {
  }

  /** How one more line changes the pending field and what is known before it. */
  lemma {:induction false} NextField(lines: seq<string>, i: nat)
    requires i < |lines| && lines[i] != []
    ensures var before, after, line := FieldsUpTo(lines, i), FieldsUpTo(lines, i + 1), lines[i];
            && (IsStartLine(line) ==> after == before)
            && (!IsStartLine(line) && IsContinuation(line) ==>
                  && MeaningBefore(after) == MeaningBefore(before)
                  && ReadLast(after) == FoldedPending(ReadLast(before), line))
            && (!IsStartLine(line) && !IsContinuation(line) ==>
                  MeaningBefore(after) == Meaning(before) && ReadLast(after) == Partition(line))
  {
    hide ReadLast, MeaningBefore, Strip, FindColon, IsStartLine;
    var before, line := Fields(lines[..i]), lines[i];
    assert lines[..i + 1][..|lines[..i + 1]|-1] == lines[..i];
    StartField(before, line);
    if before != [] {
      Continue(before, line);
    } else {
      NoField();
    }
  }

  lemma {:induction false} NoField()
    ensures ReadLast([]).None?
  {
  }

  // ---------------------------------------------------------------------
  // Line ends and the message body
  // ---------------------------------------------------------------------

  lemma {:induction false} NormalizeStep(a: string, k: nat, b: string)
    requires a != [] && (a[|a|-1] != '\r' || b == [] || b[0] != '\n')
    requires k == if |a| >= 2 && a[0] == '\r' && a[1] == '\n' then 2 else 1
    ensures Normalize(a) == (if k == 2 then ['\n'] else [a[0]]) + Normalize(a[k..])
    ensures Normalize(a + b) == (if k == 2 then ['\n'] else [a[0]]) + Normalize(a[k..] + b)
  {
    assert (a + b)[k..] == a[k..] + b;
  }

  lemma {:induction false} NormalizeAppend(a: string, b: string)
    requires a == [] || a[|a|-1] != '\r' || b == [] || b[0] != '\n'
    ensures Normalize(a + b) == Normalize(a) + Normalize(b)
    decreases |a|
  {
    assert Normalize([]) == [];
    hide Normalize;
    if a == [] {
      assert a + b == b;
    } else {
      var k := if |a| >= 2 && a[0] == '\r' && a[1] == '\n' then 2 else 1;
      NormalizeStep(a, k, b);
      NormalizeAppend(a[k..], b);
    }
  }

  lemma {:induction false} SplitCons(c: char, s: string)
    ensures Split([c] + s) == if c == '\n' then [[]] + Split(s) else [[c] + Split(s)[0]] + Split(s)[1..]
  {
    assert ([c] + s)[1..] == s;
  }

  lemma {:induction false} SplitAtNewline(a: string, b: string)
    ensures Split(a + ['\n'] + b) == Split(a) + Split(b)
  {
    assert Split([]) == [[]];
    hide Split;
    if a == [] {
      assert a + ['\n'] + b == ['\n'] + b;
      SplitCons('\n', b);
    } else {
      var c, rest := a[0], a[1..];
      assert a == [c] + rest;
      assert a + ['\n'] + b == [c] + (rest + ['\n'] + b);
      SplitAtNewline(rest, b);
      SplitCons(c, rest);
      SplitCons(c, rest + ['\n'] + b);
      FirstLineLonger(Split(rest), Split(b), c);
    }
  }

  lemma {:induction false} FirstLineLonger(r: seq<string>, t: seq<string>, c: char)
    requires r != []
    ensures [[c] + (r + t)[0]] + (r + t)[1..] == [[c] + r[0]] + r[1..] + t
    ensures [[]] + (r + t) == [[]] + r + t
  {
  }

  lemma {:induction false} CutBeforeBody(front: seq<string>, back: seq<string>)
    ensures HeaderLines(front + [[]] + back) == HeaderLines(front)
  {
    if front == [] {
      assert front + [[]] + back == [[]] + back;
    } else {
      assert (front + [[]] + back)[1..] == front[1..] + [[]] + back;
      CutBeforeBody(front[1..], back);
    }
  }

  lemma {:induction false} SplitAtBlank(h: string, b: string)
    ensures Split(h + "\n\n" + b) == Split(h) + [[]] + Split(b)
  {
    assert Split([]) == [[]];
    hide Split;
    SplitAtNewline(h, "\n" + b);
    SplitAtNewline([], b);
    assert [] + ['\n'] + b == "\n" + b;
    assert h + ['\n'] + ("\n" + b) == h + "\n\n" + b;
    assert Split(h) + ([[]] + Split(b)) == Split(h) + [[]] + Split(b);
  }

  /** Two line ends, each of either style, after `head`; a CR at the end of `head` would belong to the first. */
  predicate IsBlankAfter(head: string, blank: string) {
    || blank == "\r\n\r\n" || blank == "\r\n\n"
    || ((blank == "\n\n" || blank == "\n\r\n") && (head == [] || head[|head|-1] != '\r'))
  }

  lemma {:induction false} NormalizeLineEnd(rest: string)
    ensures Normalize("\r\n" + rest) == "\n" + Normalize(rest)
    ensures Normalize("\n" + rest) == "\n" + Normalize(rest)
  {
    assert ("\r\n" + rest)[2..] == rest && ("\n" + rest)[1..] == rest;
  }

  lemma {:induction false} NormalizeBlank(blank: string, body: string)
    requires IsBlankAfter([], blank)
    ensures Normalize(blank + body) == "\n\n" + Normalize(body)
    ensures blank[0] == '\n' || blank[..2] == "\r\n"
  {
    hide Normalize;
    NormalizeLineEnd(body);
    NormalizeLineEnd("\n" + body);
    NormalizeLineEnd("\r\n" + body);
    assert "\r\n\r\n" + body == "\r\n" + ("\r\n" + body) && "\r\n\n" + body == "\r\n" + ("\n" + body);
    assert "\n\n" + body == "\n" + ("\n" + body) && "\n\r\n" + body == "\n" + ("\r\n" + body);
    assert "\n" + ("\n" + Normalize(body)) == "\n\n" + Normalize(body);
  }

  /** Lines of a text that continues after a blank line. */
  lemma {:induction false} LinesAtBlank(head: string, blank: string, body: string)
    requires IsBlankAfter(head, blank)
    ensures Lines(head + blank + body) == Lines(head) + [[]] + Lines(body)
  {
    hide Normalize, Split;
    NormalizeBlank(blank, body);
    NormalizeAppend(head, blank + body);
    SplitAtBlank(Normalize(head), Normalize(body));
    assert head + blank + body == head + (blank + body);
    assert Normalize(head) + ("\n\n" + Normalize(body)) == Normalize(head) + "\n\n" + Normalize(body);
  }

  /** Whatever follows the blank line is not read: a message means what its header part means. */
  lemma {:induction false} BodyIsIgnored(head: string, blank: string, body: string)
    requires IsBlankAfter(head, blank)
    ensures Parsed(head + blank + body) == Parsed(head)
  {
    hide IsBlankAfter;
    LinesAtBlank(head, blank, body);
    CutBeforeBody(Lines(head), Lines(body));
  }

  function ToCrlf(s: string): string {
    if s == [] then [] else (if s[0] == '\n' then "\r\n" else [s[0]]) + ToCrlf(s[1..])
  }

  lemma {:induction false} NormalizeToCrlf(s: string)
    ensures Normalize(ToCrlf(s)) == s
  {
    if s != [] {
      var rest := ToCrlf(s[1..]);
      NormalizeToCrlf(s[1..]);
      if s[0] == '\n' {
        assert ("\r\n" + rest)[2..] == rest;
        assert s == ['\n'] + s[1..];
      } else {
        assert ([s[0]] + rest)[1..] == rest;
        assert rest == [] || rest[0] != '\n';
        assert s == [s[0]] + s[1..];
      }
    }
  }

  lemma {:induction false} NormalizeLf(s: string)
    requires forall i | 0 <= i < |s| - 1 :: !(s[i] == '\r' && s[i + 1] == '\n')
    ensures Normalize(s) == s
  {
    if s != [] {
      NormalizeLf(s[1..]);
      assert s == [s[0]] + s[1..];
    }
  }

  /** A message with LF line ends means the same as the message with CRLF line ends. */
  lemma {:induction false} CrlfAndLfAlike(s: string)
    requires forall i | 0 <= i < |s| - 1 :: !(s[i] == '\r' && s[i + 1] == '\n')
    ensures Parsed(ToCrlf(s)) == Parsed(s)
  {
    NormalizeToCrlf(s);
    NormalizeLf(s);
  }

  // ---------------------------------------------------------------------
  // Rendered headers come back
  // ---------------------------------------------------------------------

  /** A header as it is written to the wire: a name, and a value on one or several lines. */
  datatype Header = Header(name: string, first: string, folds: seq<Fold>)

  /** A continuation line: white space, blanks or tabs in any mixture, and a text. */
  datatype Fold = Fold(indent: string, text: string)

  predicate IsIndent(s: string) { s != [] && forall c <- s :: c == ' ' || c == '\t' }

  predicate OneLine(s: string) { forall c <- s :: c != '\r' && c != '\n' }

  /** Text with no white space at either end. */
  predicate Clean(s: string) { s != [] && !IsSpace(s[0]) && !IsSpace(s[|s|-1]) }

  predicate Renderable(h: Header) {
    && Canonical(h.name).Some?
    && OneLine(h.first) && (Clean(h.first) || (h.first == [] && h.folds == []))
    && forall f <- h.folds :: IsIndent(f.indent) && OneLine(f.text) && Clean(f.text)
  }

  /** The value a header carries: its lines joined by single blanks. */
  function Value(first: string, folds: seq<Fold>): string {
    if folds == [] then first else Value(first, folds[..|folds|-1]) + " " + folds[|folds|-1].text
  }

  function FoldLine(f: Fold): string { f.indent + f.text }

  function FoldLines(folds: seq<Fold>): seq<string> {
    if folds == [] then [] else FoldLines(folds[..|folds|-1]) + [FoldLine(folds[|folds|-1])]
  }

  function HeadLine(h: Header): string { h.name + ":" + (" " + h.first) }

  function LinesOf(hs: seq<Header>): seq<string> {
    if hs == [] then []
    else
      var h := hs[|hs|-1];
      LinesOf(hs[..|hs|-1]) + [HeadLine(h)] + FoldLines(h.folds)
  }

  function MessageLines(start: string, hs: seq<Header>): seq<string> { [start] + LinesOf(hs) }

  /** Every line followed by CRLF. */
  function WithCrlf(lines: seq<string>): string {
    if lines == [] then [] else lines[0] + "\r\n" + WithCrlf(lines[1..])
  }

  function Message(start: string, hs: seq<Header>, body: string): string {
    WithCrlf(MessageLines(start, hs)) + "\r\n" + body
  }

  /** What a list of headers says: for each key, the value of its last header. */
  function ValuesOf(hs: seq<Header>): map<string, string>
    requires forall h <- hs :: Renderable(h)
  {
    if hs == [] then map[]
    else
      var h := hs[|hs|-1];
      assert h in hs && Renderable(h);
      ValuesOf(hs[..|hs|-1])[Canonical(h.name).value := Value(h.first, h.folds)]
  }

  lemma {:induction false} OneLineAsIs(l: string)
    requires OneLine(l)
    ensures Normalize(l) == l && Split(l) == [l]
  {
    if l != [] {
      assert l[0] in l;
      assert forall c <- l[1..] :: c in l;
      OneLineAsIs(l[1..]);
      assert l == [l[0]] + l[1..];
    }
  }

  lemma {:induction false} FirstLine(l: string, rest: string)
    requires OneLine(l)
    ensures Lines(l + "\r\n" + rest) == [l] + Lines(rest)
  {
    hide Normalize, Split;
    OneLineAsIs(l);
    CrlfFirst(rest);
    assert l != [] ==> l[|l|-1] in l;
    hide OneLine;
    NormalizeAppend(l, "\r\n" + rest);
    Reassociate(l, "\r\n", rest);
    Reassociate(l, ['\n'], Normalize(rest));
    SplitAtNewline(l, Normalize(rest));
  }

  lemma {:induction false} Reassociate(a: string, b: string, c: string)
    ensures a + b + c == a + (b + c)
  {
  }

  lemma {:induction false} CrlfFirst(rest: string)
    ensures Normalize("\r\n" + rest) == ['\n'] + Normalize(rest)
  {
    assert ("\r\n" + rest)[2..] == rest;
  }

  lemma {:induction false} RenderedLines(lines: seq<string>, body: string)
    requires forall l <- lines :: OneLine(l)
    ensures Lines(WithCrlf(lines) + "\r\n" + body) == lines + [[]] + Lines(body)
  {
    hide Lines, OneLine;
    if lines == [] {
      EmptyIsOneLine();
      FirstLine("", body);
      assert WithCrlf(lines) + "\r\n" == "" + "\r\n";
      assert [""] + Lines(body) == lines + [[]] + Lines(body);
    } else {
      assert lines[0] in lines;
      assert forall l <- lines[1..] :: l in lines;
      RenderedLines(lines[1..], body);
      var rest := WithCrlf(lines[1..]) + "\r\n" + body;
      FirstLine(lines[0], rest);
      CrlfRegroup(lines[0], WithCrlf(lines[1..]), body);
      hide WithCrlf;
      assert [lines[0]] + (lines[1..] + [[]] + Lines(body)) == lines + [[]] + Lines(body);
    }
  }

  lemma {:induction false} CrlfRegroup(a: string, b: string, c: string)
    ensures (a + "\r\n" + b) + "\r\n" + c == a + "\r\n" + (b + "\r\n" + c)
  {
  }

  lemma {:induction false} EmptyIsOneLine()
    ensures OneLine("")
  {
  }

  predicate NameChar(c: char) { 'a' <= c <= 'z' || 'A' <= c <= 'Z' || c == '-' }

  lemma {:induction false} LowerName(name: string, key: string)
    requires Lower(name) == key && forall i | 0 <= i < |key| :: NameChar(key[i])
    ensures |name| == |key| && forall c <- name :: NameChar(c)
    ensures name != [] ==> LowerChar(name[0]) == key[0]
  {
    forall i | 0 <= i < |name|
      ensures NameChar(name[i])
    {
      assert LowerChar(name[i]) == Lower(name)[i] == key[i];
    }
  }

  /** A known name has only letters and dashes, and does not begin like a start line. */
  lemma {:induction false} KnownName(name: string)
    requires Canonical(name).Some?
    ensures name != [] && (forall c <- name :: NameChar(c)) && name[0] in "xXpP"
  {
    var key := Lower(name);
    KeyChars(key);
    hide NameChar, Lower;
    LowerName(name, key);
    FirstLetter(name[0]);
  }

  lemma {:induction false} FirstLetter(c: char)
    requires LowerChar(c) == 'x' || LowerChar(c) == 'p'
    ensures c in "xXpP"
  {
  }

  lemma {:induction false} KeyChars(key: string)
    requires key == "x-vicidial-leadid" || key == "x-vicidial-uniqueid" || key == "x-vicidial-campaign"
          || key == "x-vicidial-phone" || key == "p-asserted-identity"
    ensures key != [] && (key[0] == 'x' || key[0] == 'p') && forall i | 0 <= i < |key| :: NameChar(key[i])
  {
  }

  lemma {:induction false} CleanStripped(s: string)
    requires Clean(s)
    ensures Strip(s) == s && Strip(" " + s) == s
  {
    assert (" " + s)[1..] == s;
  }

  /** What unfolding makes of the lines of one header. */
  lemma {:induction false} UnfoldHeader(name: string, first: string, folds: seq<Fold>)
    requires forall f <- folds :: IsIndent(f.indent) && Clean(f.text)
    ensures Unfolded(name + ":" + (" " + first), FoldLines(folds)) == name + ":" + (" " + Value(first, folds))
  {
    hide Strip, Clean;
    if folds != [] {
      var init, last := folds[..|folds|-1], folds[|folds|-1];
      assert last in folds;
      assert forall f <- init :: f in folds;
      UnfoldHeader(name, first, init);
      IndentStripped(last.indent, last.text);
      LastFoldLine(folds);
      Regroup(name + ":", Value(first, init), last.text);
    }
  }

  lemma {:induction false} IndentStripped(indent: string, text: string)
    requires (forall c <- indent :: c == ' ' || c == '\t') && Clean(text)
    ensures Strip(indent + text) == text
  {
    if indent == [] {
      assert indent + text == text;
      CleanStripped(text);
    } else {
      assert indent[0] in indent && forall c <- indent[1..] :: c in indent;
      IndentStripped(indent[1..], text);
      assert (indent + text)[1..] == indent[1..] + text;
    }
  }

  lemma {:induction false} LastFoldLine(folds: seq<Fold>)
    requires folds != []
    ensures var lines := FoldLines(folds);
            lines != [] && lines[..|lines|-1] == FoldLines(folds[..|folds|-1]) && lines[|lines|-1] == FoldLine(folds[|folds|-1])
  {
  }

  lemma {:induction false} Regroup(a: string, b: string, c: string)
    ensures a + (" " + b) + " " + c == a + (" " + (b + " " + c))
  {
  }

  lemma {:induction false} ValueIsClean(first: string, folds: seq<Fold>)
    requires Clean(first) && forall f <- folds :: Clean(f.text)
    ensures Clean(Value(first, folds))
  {
    if folds != [] {
      var init, last := folds[..|folds|-1], folds[|folds|-1];
      assert last in folds && forall f <- init :: f in folds;
      ValueIsClean(first, init);
      var v := Value(first, init) + " " + last.text;
      assert v[0] == Value(first, init)[0] && v[|v|-1] == last.text[|last.text|-1];
    }
  }

  lemma {:induction false} ColonAfterName(name: string, rest: string)
    requires forall c <- name :: NameChar(c)
    ensures FindColon(name + ":" + rest) == Some(|name|)
  {
    if name == [] {
      assert name + ":" + rest == ":" + rest;
    } else {
      assert name[0] in name;
      assert forall c <- name[1..] :: c in name;
      ColonAfterName(name[1..], rest);
      assert (name + ":" + rest)[1..] == name[1..] + ":" + rest;
    }
  }

  lemma {:induction false} PartsAroundColon(name: string, rest: string)
    ensures (name + ":" + rest)[..|name|] == name && (name + ":" + rest)[|name| + 1..] == rest
  {
  }

  lemma {:induction false} NameIsClean(name: string)
    requires name != [] && forall c <- name :: NameChar(c)
    ensures Clean(name)
  {
    assert name[0] in name && name[|name|-1] in name;
  }

  lemma {:induction false} HeaderSetting(h: Header)
    requires Renderable(h)
    ensures Setting(Field(HeadLine(h), FoldLines(h.folds))) == Some((Canonical(h.name).value, Value(h.first, h.folds)))
  {
    hide Canonical, FindColon, Strip, Unfolded, Clean, IsSpace, NameChar, FoldLines, OneLine;
    var v := Value(h.first, h.folds);
    BlankStripped();
    assert Value("", []) == "";
    KnownName(h.name);
    NameIsClean(h.name);
    CleanStripped(h.name);
    UnfoldHeader(h.name, h.first, h.folds);
    ColonAfterName(h.name, " " + h.first);
    ColonAfterName(h.name, " " + v);
    PartsAroundColon(h.name, " " + v);
    if h.first != [] {
      ValueIsClean(h.first, h.folds);
      CleanStripped(v);
    }
  }

  lemma {:induction false} BlankStripped()
    ensures Strip(" " + "") == "" && !Clean("")
  {
    var s := " " + "";
    assert s[1..] == "";
    assert StripLeft(s) == StripLeft(s[1..]);
  }

  lemma {:induction false} NewField(lines: seq<string>, line: string)
    requires !IsStartLine(line) && !IsContinuation(line)
    ensures Fields(lines + [line]) == Fields(lines) + [Field(line, [])]
  {
    hide IsStartLine, IsContinuation;
    assert (lines + [line])[..|lines + [line]|-1] == lines;
  }

  lemma {:induction false} FoldField(lines: seq<string>, before: seq<Field>, f: Field, line: string)
    requires !IsStartLine(line) && IsContinuation(line) && Fields(lines) == before + [f]
    ensures Fields(lines + [line]) == before + [Field(f.head, f.folds + [line])]
  {
    hide IsStartLine, IsContinuation;
    assert (lines + [line])[..|lines + [line]|-1] == lines;
    assert (before + [f])[..|before + [f]|-1] == before;
  }

  /** The lines of a header become one field, whatever comes before. */
  lemma {:induction false} HeaderFields(before: seq<string>, head: string, folds: seq<Fold>)
    requires forall f <- folds :: IsIndent(f.indent)
    requires head != [] && !IsStartLine(head) && !IsContinuation(head)
    ensures Fields(before + [head] + FoldLines(folds)) == Fields(before) + [Field(head, FoldLines(folds))]
  {
    hide IsStartLine, IsContinuation, IsIndent, FoldLine, Fields;
    if folds == [] {
      assert before + [head] + [] == before + [head];
      NewField(before, head);
    } else {
      var init, last := folds[..|folds|-1], FoldLine(folds[|folds|-1]);
      assert folds[|folds|-1] in folds && forall f <- init :: f in folds;
      HeaderFields(before, head, init);
      IndentIsNoStart(folds[|folds|-1]);
      var lines := before + [head] + FoldLines(init);
      FoldField(lines, Fields(before), Field(head, FoldLines(init)), last);
      assert before + [head] + (FoldLines(init) + [last]) == lines + [last];
    }
  }

  lemma {:induction false} IndentIsNoStart(f: Fold)
    requires IsIndent(f.indent)
    ensures !IsStartLine(FoldLine(f)) && IsContinuation(FoldLine(f))
  {
    assert FoldLine(f)[0] == f.indent[0] && f.indent[0] in f.indent;
    NoStart(FoldLine(f));
    hide IsStartLine;
  }

  /** Start lines begin with one of six capital letters. */
  lemma {:induction false} NoStart(line: string)
    requires line != [] && line[0] !in "ISABCO"
    ensures !IsStartLine(line)
  {
  }

  lemma {:induction false} AllFields(start: string, hs: seq<Header>)
    requires IsStartLine(start) && forall h <- hs :: Renderable(h)
    ensures Meaning(Fields(MessageLines(start, hs))) == ValuesOf(hs)
  {
    if hs == [] {
      OnlyStart(start);
    } else {
      var init, h := hs[..|hs|-1], hs[|hs|-1];
      assert h in hs && Renderable(h);
      assert forall g <- init :: g in hs;
      AllFields(start, init);
      hide *;
      HeadLineFacts(h);
      Indented(h);
      HeaderFields(MessageLines(start, init), HeadLine(h), h.folds);
      MoreLines(start, hs);
      MoreMeaning(Fields(MessageLines(start, init)), h);
      MoreValues(hs);
    }
  }

  lemma {:induction false} Indented(h: Header)
    requires Renderable(h)
    ensures forall f <- h.folds :: IsIndent(f.indent)
  {
  }

  lemma {:induction false} MoreLines(start: string, hs: seq<Header>)
    requires hs != []
    ensures var h := hs[|hs|-1];
            MessageLines(start, hs) == MessageLines(start, hs[..|hs|-1]) + [HeadLine(h)] + FoldLines(h.folds)
  {
    hide HeadLine, FoldLines;
    var init, h := hs[..|hs|-1], hs[|hs|-1];
    assert [start] + (LinesOf(init) + [HeadLine(h)] + FoldLines(h.folds)) == [start] + LinesOf(init) + [HeadLine(h)] + FoldLines(h.folds);
  }

  lemma {:induction false} MoreMeaning(fields: seq<Field>, h: Header)
    requires Renderable(h)
    ensures Meaning(fields + [Field(HeadLine(h), FoldLines(h.folds))])
         == Meaning(fields)[Canonical(h.name).value := Value(h.first, h.folds)]
  {
    hide HeadLine, FoldLines, Setting, Canonical, Value;
    HeaderSetting(h);
    var more := fields + [Field(HeadLine(h), FoldLines(h.folds))];
    assert more[..|more|-1] == fields;
  }

  lemma {:induction false} MoreValues(hs: seq<Header>)
    requires hs != [] && (forall h <- hs :: Renderable(h)) && (forall h <- hs[..|hs|-1] :: Renderable(h))
    requires Canonical(hs[|hs|-1].name).Some?
    ensures var h := hs[|hs|-1]; ValuesOf(hs) == ValuesOf(hs[..|hs|-1])[Canonical(h.name).value := Value(h.first, h.folds)]
  {
  }

  lemma {:induction false} AllOneLine(start: string, hs: seq<Header>)
    requires IsStartLine(start) && OneLine(start) && forall h <- hs :: Renderable(h)
    ensures forall l <- MessageLines(start, hs) :: l != [] && OneLine(l)
  {
    if hs == [] {
      StartNotEmpty(start);
    } else {
      var init, h := hs[..|hs|-1], hs[|hs|-1];
      assert h in hs && Renderable(h);
      assert forall g <- init :: g in hs;
      AllOneLine(start, init);
      hide *;
      HeadLineFacts(h);
      FoldLineFacts(h);
      MoreLines(start, hs);
    }
  }

  lemma {:induction false} OnlyStart(start: string)
    requires IsStartLine(start)
    ensures Meaning(Fields(MessageLines(start, []))) == map[]
  {
    assert MessageLines(start, []) == [start] && [start][..0] == [];
  }

  lemma {:induction false} HeadLineFacts(h: Header)
    requires Renderable(h)
    ensures HeadLine(h) != [] && OneLine(HeadLine(h)) && !IsStartLine(HeadLine(h)) && !IsContinuation(HeadLine(h))
  {
    KnownName(h.name);
    assert HeadLine(h)[0] == h.name[0];
    NoStart(HeadLine(h));
    hide Canonical, IsStartLine;
  }

  lemma {:induction false} FoldLineFacts(h: Header)
    requires Renderable(h)
    ensures forall l <- FoldLines(h.folds) :: l != [] && OneLine(l)
  {
    FoldLinesOneLine(h.folds);
  }

  lemma {:induction false} FoldLinesOneLine(folds: seq<Fold>)
    requires forall f <- folds :: IsIndent(f.indent) && OneLine(f.text)
    ensures forall l <- FoldLines(folds) :: l != [] && OneLine(l)
  {
    if folds != [] {
      var last := folds[|folds|-1];
      assert last in folds && forall f <- folds[..|folds|-1] :: f in folds;
      FoldLinesOneLine(folds[..|folds|-1]);
      assert forall c <- FoldLine(last) :: c in last.indent || c in last.text;
    }
  }

  /**
    Round trip: any list of known headers, names in any letter case, values on one or several lines,
    written as a message with any start line and any body, is read back as exactly the values it carries.
   */
  lemma {:induction false} RenderedHeadersComeBack(start: string, hs: seq<Header>, body: string)
    requires IsStartLine(start) && OneLine(start) && forall h <- hs :: Renderable(h)
    ensures Parsed(Message(start, hs, body)) == ValuesOf(hs)
  {
    hide IsStartLine, OneLine, Renderable, Lines, Fields, Meaning, MessageLines, WithCrlf, HeaderLines;
    var lines := MessageLines(start, hs);
    AllFields(start, hs);
    AllOneLine(start, hs);
    RenderedLines(lines, body);
    CutBeforeBody(lines, Lines(body));
    assert forall j | 0 <= j < |lines| :: lines[j] in lines;
    CutHere(lines, |lines|);
    assert lines[..|lines|] == lines;
  }

  lemma {:induction false} StartNotEmpty(start: string)
    requires IsStartLine(start)
    ensures start != []
  {
  }
}
