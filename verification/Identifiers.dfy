/**
 Identifier quoting (src/batch.rs) and a reader for quoted names as SQL Server sees them:
 inside brackets `]]` stands for `]`, and a dot separates parts only outside brackets.
 */
module Identifiers {
  import opened Common

  datatype QuoteError = NullByte

  const NUL: char := '\0'

  // ----- names and their dot-separated parts -----

  /** Rust's `name.split('.')`. */
  function SplitDots(name: string): (parts: seq<string>)
    ensures |parts| >= 1
  {
    if name == "" then [""] else
      var rest := SplitDots(name[1..]);
      if name[0] == '.' then [""] + rest else [[name[0]] + rest[0]] + rest[1..]
  }

  function Join(parts: seq<string>, sep: string): string {
    if |parts| == 0 then ""
    else if |parts| == 1 then parts[0]
    else parts[0] + (sep + Join(parts[1..], sep))
  }

  lemma {:induction false} JoinOfSplit(name: string)
    ensures Join(SplitDots(name), ".") == name
  {
    if name != "" {
      var rest := SplitDots(name[1..]);
      JoinOfSplit(name[1..]);
      assert name == [name[0]] + name[1..];
      if name[0] == '.' {
        assert ([""] + rest)[1..] == rest;
      } else if |rest| > 1 {
        assert ([[name[0]] + rest[0]] + rest[1..])[1..] == rest[1..];
      }
    }
  }

  predicate NoDots(parts: seq<string>) {
    parts != [] ==> '.' !in parts[0] && NoDots(parts[1..])
  }

  /** No dot is left inside a part. */
  lemma {:induction false} SplitLeavesNoDots(name: string)
    ensures NoDots(SplitDots(name))
  {
    if name != "" {
      var rest := SplitDots(name[1..]);
      SplitLeavesNoDots(name[1..]);
      if name[0] == '.' {
        Cut([""], rest);
      } else {
        Cut([[name[0]] + rest[0]], rest[1..]);
      }
    }
  }

  lemma {:induction false} SplitOfPlain(part: string)
    requires '.' !in part
    ensures SplitDots(part) == [part]
  {
    if part != "" {
      Uncons(part);
      SplitOfPlain(part[1..]);
    }
  }

  lemma {:induction false} SplitAtDot(part: string, rest: string)
    requires '.' !in part
    ensures SplitDots(part + ("." + rest)) == [part] + SplitDots(rest)
  {
    var name := part + ("." + rest);
    Cut(".", rest);
    if part == "" {
      Units("." + rest);
    } else {
      Uncons(part);
      Assoc([part[0]], part[1..], "." + rest);
      Cut([part[0]], part[1..] + ("." + rest));
      SplitAtDot(part[1..], rest);
      Cut([part[1..]], SplitDots(rest));
    }
  }

  /** The parts of a name are the only dotless strings that joined by dots give it. */
  lemma {:induction false} SplitIsUnique(parts: seq<string>)
    requires parts != [] && NoDots(parts)
    ensures SplitDots(Join(parts, ".")) == parts
  {
    Uncons(parts);
    if |parts| == 1 {
      Single(parts);
      SplitOfPlain(parts[0]);
    } else {
      SplitIsUnique(parts[1..]);
      SplitAtDot(parts[0], Join(parts[1..], "."));
    }
  }

  predicate AnyNul(parts: seq<string>) {
    parts != [] && (NUL in parts[0] || AnyNul(parts[1..]))
  }

  lemma {:induction false} SplitNul(name: string)
    ensures NUL in name <==> AnyNul(SplitDots(name))
  {
    if name != "" {
      var rest := SplitDots(name[1..]);
      SplitNul(name[1..]);
      Uncons(name);
      if name[0] == '.' {
        Cut([""], rest);
      } else {
        Cut([[name[0]] + rest[0]], rest[1..]);
      }
    }
  }

  // ----- quoting -----

  function Escape(part: string): string {
    if part == "" then ""
    else (if part[0] == ']' then "]]" else [part[0]]) + Escape(part[1..])
  }

  /** An empty part stays empty; any other is bracketed. */
  function QuotePart(part: string): string {
    if part == "" then "" else "[" + (Escape(part) + "]")
  }

  function QuoteParts(parts: seq<string>): (r: seq<string>)
    ensures |r| == |parts|
  {
    seq(|parts|, i requires 0 <= i < |parts| => QuotePart(parts[i]))
  }

  function QuoteName(name: string): string {
    Join(QuoteParts(SplitDots(name)), ".")
  }

  lemma {:induction false} EscapeAppend(part: string, c: char)
    ensures Escape(part + [c]) == Escape(part) + (if c == ']' then "]]" else [c])
  {
    if part == "" {
      assert part + [c] == [c];
    } else {
      assert (part + [c])[1..] == part[1..] + [c];
      EscapeAppend(part[1..], c);
    }
  }

  method QuoteIdentifierPart(part: string) returns (r: Result<string, QuoteError>)
    ensures r.Err? <==> NUL in part
    ensures r.Ok? ==> r.value == "[" + Escape(part) + "]"
  {
    if NUL in part {
      return Err(NullByte);
    }
    var quoted := "[";
    for i := 0 to |part|
      invariant quoted == "[" + Escape(part[..i])
    {
      assert part[..i + 1] == part[..i] + [part[i]];
      EscapeAppend(part[..i], part[i]);
      if part[i] == ']' {
        quoted := quoted + "]";
      }
      quoted := quoted + [part[i]];
    }
    assert part[..|part|] == part;
    return Ok(quoted + "]");
  }

  lemma {:induction false} JoinAppend(parts: seq<string>, last: string, sep: string)
    requires |parts| >= 1
    ensures Join(parts + [last], sep) == Join(parts, sep) + sep + last
  {
    var all := parts + [last];
    assert all[1..] == parts[1..] + [last];
    if |parts| > 1 {
      JoinAppend(parts[1..], last, sep);
    }
  }

  /** What a joining loop adds for item `i`. */
  lemma JoinNext(items: seq<string>, i: nat, sep: string)
    requires i < |items|
    ensures Join(items[..i + 1], sep)
      == (if i > 0 then Join(items[..i], sep) + sep else Join(items[..i], sep)) + items[i]
  {
    Unsnoc(items, i);
    if i > 0 {
      JoinAppend(items[..i], items[i], sep);
    } else {
      Units(items[i]);
    }
  }

  lemma QuotePartText(part: string)
    requires part != ""
    ensures "[" + Escape(part) + "]" == QuotePart(part)
  {
    Assoc("[", Escape(part), "]");
  }

  /** The name text written once `i` parts have been processed. */
  function QuotedSoFar(parts: seq<string>, i: nat): string
    requires i <= |parts|
  {
    Join(QuoteParts(parts)[..i], ".")
  }

  lemma QuotedNext(parts: seq<string>, i: nat)
    requires i < |parts|
    ensures QuotedSoFar(parts, 0) == "" && QuotedSoFar(parts, |parts|) == Join(QuoteParts(parts), ".")
    ensures QuotedSoFar(parts, i + 1)
      == (if i > 0 then QuotedSoFar(parts, i) + "." else QuotedSoFar(parts, i)) + QuotePart(parts[i])
  {
    JoinNext(QuoteParts(parts), i, ".");
    Whole(QuoteParts(parts));
  }

  /** An empty part is preserved as it is; any other is appended quoted. */
  method PushPart(text: string, part: string) returns (r: Result<string, QuoteError>)
    ensures r.Err? <==> NUL in part
    ensures r.Ok? ==> r.value == text + QuotePart(part)
  {
    if part == "" {
      Units(text);
      return Ok(text);
    }
    var q := QuoteIdentifierPart(part);
    if q.Err? {
      return Err(q.error);
    }
    QuotePartText(part);
    return Ok(text + q.value);
  }

  method QuoteIdentifier(name: string) returns (r: Result<string, QuoteError>)
    ensures r.Err? <==> NUL in name
    ensures r.Ok? ==> r.value == QuoteName(name)
  {
    var parts := SplitDots(name);
    var result := "";
    QuotedNext(parts, 0);
    SplitNul(name);
    Whole(parts);
    for i := 0 to |parts|
      invariant NUL in name <==> AnyNul(parts[i..])
      invariant result == QuotedSoFar(parts, i)
    {
      QuotedNext(parts, i);
      Uncons(parts[i..]);
      if i > 0 {
        result := result + ".";
      }
      var pushed := PushPart(result, parts[i]);
      if pushed.Err? {
        return Err(pushed.error);
      }
      result := pushed.value;
    }
    return Ok(result);
  }

  // ----- reading quoted names back -----

  /** Reads after an opening bracket: the part's own text and what follows its closing bracket. */
  function ReadBracket(s: string): (r: Option<(string, string)>)
    ensures r.Some? ==> |r.value.1| < |s|
  {
    if s == "" then None
    else if s[0] == ']' && !(|s| > 1 && s[1] == ']') then Some(("", s[1..]))
    else
      match ReadBracket(if s[0] == ']' then s[2..] else s[1..])
      case None => None
      case Some((part, rest)) => Some(([s[0]] + part, rest))
  }

  /** Reads a multipart name at the front of `s`: its parts, and the text after it. */
  function ReadName(s: string): (r: Option<(seq<string>, string)>)
    ensures r.Some? ==> |r.value.1| <= |s| && |r.value.0| >= 1
    decreases |s|
  {
    if s != "" && s[0] == '[' then
      match ReadBracket(s[1..])
      case None => None
      case Some((part, rest)) => if part == "" then None else ReadMoreParts(part, rest)
    else ReadMoreParts("", s)
  }

  function ReadMoreParts(part: string, s: string): (r: Option<(seq<string>, string)>)
    ensures r.Some? ==> |r.value.1| <= |s| && |r.value.0| >= 1
    decreases |s|, 0
  {
    if s == "" || s[0] != '.' then Some(([part], s)) else
      match ReadName(s[1..])
      case None => None
      case Some((parts, rest)) => Some(([part] + parts, rest))
  }

  /** Text that cannot be mistaken for the continuation of a quoted name. */
  predicate EndsName(rest: string) {
    rest == "" || rest[0] !in {'.', '[', ']'}
  }

  lemma {:induction false} ReadBracketOfEscape(part: string, rest: string)
    requires rest == "" || rest[0] != ']'
    ensures ReadBracket(Escape(part) + ("]" + rest)) == Some((part, rest))
  {
    var close := "]" + rest;
    if part == "" {
      Units(close);
      Cut("]", rest);
    } else {
      var first := if part[0] == ']' then "]]" else [part[0]];
      ReadBracketOfEscape(part[1..], rest);
      Assoc(first, Escape(part[1..]), close);
      Cut(first, Escape(part[1..]) + close);
      Uncons(part);
    }
  }

  lemma ReadOnePart(part: string, more: string)
    requires more == "" || more[0] !in {'[', ']'}
    ensures ReadName(QuotePart(part) + more) == ReadMoreParts(part, more)
  {
    var s := QuotePart(part) + more;
    if part == "" {
      assert s == more;
    } else {
      var inner := Escape(part) + ("]" + more);
      ReadBracketOfEscape(part, more);
      Assoc(Escape(part), "]", more);
      Assoc("[", Escape(part) + "]", more);
      assert s == "[" + inner;
      assert s[1..] == inner;
    }
  }

  lemma QuotePartsTail(parts: seq<string>)
    requires parts != []
    ensures QuoteParts(parts)[1..] == QuoteParts(parts[1..])
  {
  }

  lemma {:induction false} ReadQuotedParts(parts: seq<string>, rest: string)
    requires |parts| >= 1 && EndsName(rest)
    ensures ReadName(Join(QuoteParts(parts), ".") + rest) == Some((parts, rest))
  {
    var q := QuoteParts(parts);
    Uncons(parts);
    if |parts| == 1 {
      Single(parts);
      ReadOnePart(parts[0], rest);
    } else {
      var tail := Join(q[1..], ".") + rest;
      QuotePartsTail(parts);
      ReadQuotedParts(parts[1..], rest);
      ReadOnePart(parts[0], "." + tail);
      Cut(".", tail);
      Assoc(".", Join(q[1..], "."), rest);
      Assoc(q[0], "." + Join(q[1..], "."), rest);
    }
  }

  /** Reading a quoted name gives its parts, and joining them gives the name: quoting is invertible. */
  lemma QuoteReadsBack(name: string, rest: string)
    requires EndsName(rest)
    ensures ReadName(QuoteName(name) + rest) == Some((SplitDots(name), rest))
    ensures Join(SplitDots(name), ".") == name && NoDots(SplitDots(name))
  {
    ReadQuotedParts(SplitDots(name), rest);
    JoinOfSplit(name);
    SplitLeavesNoDots(name);
  }

  lemma QuoteInjective(a: string, b: string)
    requires QuoteName(a) == QuoteName(b)
    ensures a == b
  {
    QuoteReadsBack(a, "");
    QuoteReadsBack(b, "");
  }

  // ----- lists of column names -----

  function QuoteNames(names: seq<string>): (r: seq<string>)
    ensures |r| == |names|
  {
    seq(|names|, i requires 0 <= i < |names| => QuoteName(names[i]))
  }

  function SplitAll(names: seq<string>): (r: seq<seq<string>>)
    ensures |r| == |names|
  {
    seq(|names|, i requires 0 <= i < |names| => SplitDots(names[i]))
  }

  /** Quotes the column names in order, failing at the first that cannot be, and joins them with commas. */
  method QuoteColumns(columns: seq<string>) returns (r: Result<string, QuoteError>)
    ensures r.Err? <==> exists i :: 0 <= i < |columns| && NUL in columns[i]
    ensures r.Ok? ==> r.value == Join(QuoteNames(columns), ", ")
  {
    var quoted: seq<string> := [];
    for i := 0 to |columns|
      invariant forall j :: 0 <= j < i ==> NUL !in columns[j]
      invariant quoted == QuoteNames(columns)[..i]
    {
      var q := QuoteIdentifier(columns[i]);
      if q.Err? {
        return Err(q.error);
      }
      quoted := quoted + [q.value];
    }
    assert quoted == QuoteNames(columns);
    return Ok(Join(quoted, ", "));
  }

  /** Reads names separated by ", ". */
  function ReadNames(s: string): Option<(seq<seq<string>>, string)>
    decreases |s|
  {
    match ReadName(s)
    case None => None
    case Some((parts, rest)) =>
      if |rest| >= 2 && rest[..2] == ", " then
        match ReadNames(rest[2..])
        case None => None
        case Some((names, last)) => Some(([parts] + names, last))
      else Some(([parts], rest))
  }

  lemma ReadOneName(name: string, more: string)
    requires EndsName(more)
    ensures ReadNames(QuoteName(name) + more) ==
      if |more| >= 2 && more[..2] == ", " then
        match ReadNames(more[2..])
        case None => None
        case Some((names, last)) => Some(([SplitDots(name)] + names, last))
      else Some(([SplitDots(name)], more))
  {
    QuoteReadsBack(name, more);
  }

  lemma NamesTail(names: seq<string>)
    requires names != []
    ensures QuoteNames(names)[1..] == QuoteNames(names[1..])
    ensures SplitAll(names) == [SplitDots(names[0])] + SplitAll(names[1..])
  {
  }

  lemma {:induction false} ReadQuotedNames(names: seq<string>, rest: string)
    requires |names| >= 1 && EndsName(rest) && (rest == "" || rest[0] != ',')
    ensures ReadNames(Join(QuoteNames(names), ", ") + rest) == Some((SplitAll(names), rest))
  {
    var q := QuoteNames(names);
    NamesTail(names);
    if |names| == 1 {
      Single(SplitAll(names));
      ReadOneName(names[0], rest);
    } else {
      var tail := Join(q[1..], ", ") + rest;
      ReadQuotedNames(names[1..], rest);
      ReadOneName(names[0], ", " + tail);
      Cut(", ", tail);
      Assoc(", ", Join(q[1..], ", "), rest);
      Assoc(q[0], ", " + Join(q[1..], ", "), rest);
    }
  }

  /** The list of column names is recoverable from the joined column text. */
  lemma ColumnTextInjective(a: seq<string>, b: seq<string>)
    requires |a| >= 1 && |b| >= 1
    requires Join(QuoteNames(a), ", ") == Join(QuoteNames(b), ", ")
    ensures a == b
  {
    ReadQuotedNames(a, "");
    ReadQuotedNames(b, "");
    assert Join(QuoteNames(a), ", ") + "" == Join(QuoteNames(b), ", ") + "";
    assert SplitAll(a) == SplitAll(b);
    forall i | 0 <= i < |a| ensures a[i] == b[i] {
      assert SplitAll(a)[i] == SplitAll(b)[i];
      JoinOfSplit(a[i]);
      JoinOfSplit(b[i]);
    }
  }
}
