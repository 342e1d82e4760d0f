/** Attribute paths: `map.property` member access and `list[1]` index access,
    with `\` escaping the control characters `.`, `[` and `\` inside names. */
module AttributePath {
  import opened Wrappers
  import opened Text

  datatype PathElement = AttributeName(name: string) | ListIndex(index: nat)

  /** An attribute path; `FromString` parses, `FromElements` copies. */
  datatype AttributePath = AttributePath(elements: seq<PathElement>)

  /** The parser's three states. */
  datatype ParseState = Identifier | ListIndexState | ControlCharacter

  predicate IsControl(c: char) { c == '.' || c == '[' || c == '\\' }

  function InvalidControlCharacter(path: string): string
  {
    "Invalid control character encountered in path: " + path
  }

  function InvalidArrayIndex(collected: string, path: string): string
  {
    "Invalid array index (" + collected + ") encountered in path: " + path
  }

  function InvalidArrayIndexCharacter(c: char, path: string): string
  {
    "Invalid array index character (" + [c] + ") encountered in path: " + path
  }

  function BareIdentifier(path: string): string
  {
    "Bare identifier encountered between list index accesses in path: " + path
  }

  /** The name still being collected, as the element it becomes at the end of input. */
  function Pending(collected: string): seq<PathElement>
  {
    if |collected| > 0 then [AttributeName(collected)] else []
  }

  predicate NamesNonEmpty(elements: seq<PathElement>)
  {
    forall k :: 0 <= k < |elements| ==> elements[k].AttributeName? ==> |elements[k].name| > 0
  }

  /** The parser as a function of the unread input `rest`, the state, the name or
      index digits collected so far and the elements emitted so far; `path` is the
      whole input, quoted in error messages. */
  function ParseRest(path: string, rest: string, state: ParseState, collected: string,
                     elements: seq<PathElement>): (r: Result<seq<PathElement>>)
    ensures NamesNonEmpty(elements) && r.Ok? ==> NamesNonEmpty(r.value)
    ensures r.Ok? ==> |r.value| >= |elements| && r.value[..|elements|] == elements
    decreases |rest|
  {
    if |rest| == 0 then
      Ok(elements + Pending(collected))
    else
      var c := rest[0];
      match state
      case Identifier =>
        if c == '[' || c == '.' then
          if collected == "" then Err(InvalidControlCharacter(path))
          else
            ParseRest(path, rest[1..], if c == '[' then ListIndexState else Identifier, "",
                      elements + [AttributeName(collected)])
        else if c == '\\' && |rest| > 1 && IsControl(rest[1]) then
          ParseRest(path, rest[2..], Identifier, collected + [rest[1]], elements)
        else
          ParseRest(path, rest[1..], Identifier, collected + [c], elements)
      case ListIndexState =>
        if c == ']' then
          match ParseNat(collected)
          case None => Err(InvalidArrayIndex(collected, path))
          case Some(k) => ParseRest(path, rest[1..], ControlCharacter, "", elements + [ListIndex(k)])
        else if IsDigit(c) then
          ParseRest(path, rest[1..], ListIndexState, collected + [c], elements)
        else
          Err(InvalidArrayIndexCharacter(c, path))
      case ControlCharacter =>
        if c == '[' then ParseRest(path, rest[1..], ListIndexState, collected, elements)
        else if c == '.' then ParseRest(path, rest[1..], Identifier, collected, elements)
        else Err(BareIdentifier(path))
  }

  /** What parsing `path` yields: the elements, or the error thrown. */
  function ParsePathSpec(path: string): (r: Result<seq<PathElement>>)
    ensures r.Ok? ==> NamesNonEmpty(r.value)
  {
    ParseRest(path, path, Identifier, "", [])
  }

  lemma SuffixStep(path: string, i: nat)
    requires i < |path|
    ensures path[i..][0] == path[i] && path[i..][1..] == path[i + 1..]
    ensures i + 1 < |path| ==> path[i..][2..] == path[i + 2..]
  {
  }

  /** The character-level state machine, reading `path` left to right with one
      character of lookahead after a backslash. */
  method ParsePath(path: string) returns (r: Result<seq<PathElement>>)
    ensures r == ParsePathSpec(path)
    ensures r.Ok? ==> NamesNonEmpty(r.value)
  {
    var elements: seq<PathElement> := [];
    var state := Identifier;
    var collected := "";
    var i := 0;
    while i < |path|
      invariant 0 <= i <= |path|
      invariant ParseRest(path, path[i..], state, collected, elements) == ParsePathSpec(path)
      decreases |path| - i
    {
      var curr := path[i];
      SuffixStep(path, i);
      if state == Identifier {
        if curr == '[' || curr == '.' {
          if collected == "" {
            return Err(InvalidControlCharacter(path));
          }
          elements := elements + [AttributeName(collected)];
          collected := "";
          state := if curr == '[' then ListIndexState else Identifier;
        } else if curr == '\\' && i + 1 < |path| && IsControl(path[i + 1]) {
          collected := collected + [path[i + 1]];
          i := i + 1;
        } else {
          collected := collected + [curr];
        }
      } else if state == ListIndexState {
        if curr == ']' {
          var index := ParseNat(collected);
          if index.None? {
            return Err(InvalidArrayIndex(collected, path));
          }
          elements := elements + [ListIndex(index.value)];
          collected := "";
          state := ControlCharacter;
        } else if IsDigit(curr) {
          collected := collected + [curr];
        } else {
          return Err(InvalidArrayIndexCharacter(curr, path));
        }
      } else {
        if curr == '[' {
          state := ListIndexState;
        } else if curr == '.' {
          state := Identifier;
        } else {
          return Err(BareIdentifier(path));
        }
      }
      i := i + 1;
    }
    r := Ok(elements + Pending(collected));
  }

  /** `new AttributePath(path)` for a string: parses, or throws. */
  method FromString(path: string) returns (r: Result<AttributePath>)
    ensures r.Ok? <==> ParsePathSpec(path).Ok?
    ensures r.Ok? ==> r.value.elements == ParsePathSpec(path).value
    ensures r.Err? ==> r.error == ParsePathSpec(path).error
  {
    var parsed := ParsePath(path);
    match parsed
    case Ok(els) => r := Ok(AttributePath(els));
    case Err(e) => r := Err(e);
  }

  /** `new AttributePath(elements)` for an iterable of elements: a copy. */
  function FromElements(elements: seq<PathElement>): (p: AttributePath)
    ensures p.elements == elements
  {
    AttributePath(elements)
  }

  // ---------------------------------------------------------------------------
  // Rendering a path back to a string, and the round trip

  /** How many control characters `s` holds. */
  function ControlCount(s: string): (n: nat)
    ensures n <= |s|
    decreases |s|
  {
    if |s| == 0 then 0 else (if IsControl(s[0]) then 1 else 0) + ControlCount(s[1..])
  }

  /** A name with each control character preceded by a backslash. */
  function Escape(name: string): (r: string)
    ensures |r| == |name| + ControlCount(name)
    decreases |name|
  {
    if |name| == 0 then ""
    else (if IsControl(name[0]) then ['\\', name[0]] else [name[0]]) + Escape(name[1..])
  }

  /** Where the character `name[k]` lands in `Escape(name)`: shifted right by one
      for each control character before it. */
  function EscapedIndex(name: string, k: nat): nat
    requires k < |name|
  {
    k + ControlCount(name[..k]) + (if IsControl(name[k]) then 1 else 0)
  }

  /** The escaped form, character by character: every character of the name appears
      in order, each `.`, `[` and `\` right after an added backslash, and nothing
      else is added (the length is the name's plus one per control character). */
  lemma {:induction false} EscapeLayout(name: string)
    ensures |Escape(name)| == |name| + ControlCount(name)
    ensures forall k :: 0 <= k < |name| ==>
              EscapedIndex(name, k) < |Escape(name)| && Escape(name)[EscapedIndex(name, k)] == name[k]
    ensures forall k :: 0 <= k < |name| && IsControl(name[k]) ==>
              Escape(name)[EscapedIndex(name, k) - 1] == '\\'
    decreases |name|
  {
    if |name| > 0 {
      var tail := name[1..];
      EscapeLayout(tail);
      var h := if IsControl(name[0]) then 1 else 0;
      assert Escape(name) == (if IsControl(name[0]) then ['\\', name[0]] else [name[0]]) + Escape(tail);
      forall k | 0 < k < |name|
        ensures EscapedIndex(name, k) == 1 + h + EscapedIndex(tail, k - 1)
      {
        assert name[..k][1..] == tail[..k - 1];
      }
    }
  }

  function FormatElement(e: PathElement): string
  {
    match e
    case AttributeName(n) => "." + Escape(n)
    case ListIndex(k) => "[" + NatToString(k) + "]"
  }

  function FormatTail(elements: seq<PathElement>): string
    decreases |elements|
  {
    if |elements| == 0 then "" else FormatElement(elements[0]) + FormatTail(elements[1..])
  }

  /** A path the parser can produce: it starts with a name and has no empty names. */
  predicate WellFormed(elements: seq<PathElement>)
  {
    (|elements| == 0 || elements[0].AttributeName?) && NamesNonEmpty(elements)
  }

  /** The canonical string of a well-formed path. */
  function Format(elements: seq<PathElement>): string
    requires WellFormed(elements)
  {
    if |elements| == 0 then "" else Escape(elements[0].name) + FormatTail(elements[1..])
  }

  /** Reading an escaped name appends the name itself to what is being collected. */
  lemma {:induction false} ParseEscaped(path: string, name: string, rest: string,
                                        collected: string, elements: seq<PathElement>)
    ensures ParseRest(path, Escape(name) + rest, Identifier, collected, elements)
         == ParseRest(path, rest, Identifier, collected + name, elements)
    decreases |name|
  {
    if |name| > 0 {
      var head := if IsControl(name[0]) then ['\\', name[0]] else [name[0]];
      var s := Escape(name) + rest;
      assert s == head + (Escape(name[1..]) + rest);
      if IsControl(name[0]) {
        assert s[2..] == Escape(name[1..]) + rest;
      } else {
        assert s[1..] == Escape(name[1..]) + rest;
      }
      ParseEscaped(path, name[1..], rest, collected + [name[0]], elements);
      assert collected + [name[0]] + name[1..] == collected + name;
    } else {
      assert Escape(name) + rest == rest;
      assert collected + name == collected;
    }
  }

  /** Reading digits inside brackets appends them to what is being collected. */
  lemma {:induction false} ParseDigits(path: string, digits: string, rest: string,
                                       collected: string, elements: seq<PathElement>)
    requires AllDigits(digits)
    ensures ParseRest(path, digits + rest, ListIndexState, collected, elements)
         == ParseRest(path, rest, ListIndexState, collected + digits, elements)
    decreases |digits|
  {
    if |digits| > 0 {
      assert (digits + rest)[1..] == digits[1..] + rest;
      ParseDigits(path, digits[1..], rest, collected + [digits[0]], elements);
      assert collected + [digits[0]] + digits[1..] == collected + digits;
    } else {
      assert digits + rest == rest;
      assert collected + digits == collected;
    }
  }

  /** A `.` or `[` after a collected name or after an index ends the pending name
      and moves to the next state. */
  lemma StepSeparator(path: string, c: char, rest: string, state: ParseState,
                      collected: string, elements: seq<PathElement>)
    requires c == '.' || c == '['
    requires (state == Identifier && |collected| > 0) || (state == ControlCharacter && collected == "")
    ensures ParseRest(path, [c] + rest, state, collected, elements)
         == ParseRest(path, rest, if c == '.' then Identifier else ListIndexState, "",
                      elements + Pending(collected))
  {
    assert ([c] + rest)[1..] == rest;
    if state == ControlCharacter {
      assert elements + Pending(collected) == elements;
    }
  }

  lemma FormatTailStart(elements: seq<PathElement>)
    ensures FormatTail(elements) == "" || FormatTail(elements)[0] == '.' || FormatTail(elements)[0] == '['
  {
  }

  lemma ParseFormattedName(path: string, n: string, rest: string, state: ParseState,
                            collected: string, elements: seq<PathElement>)
    requires rest == "" || rest[0] == '.' || rest[0] == '['
    requires (state == Identifier && |collected| > 0) || (state == ControlCharacter && collected == "")
    ensures ParseRest(path, FormatElement(AttributeName(n)) + rest, state, collected, elements)
         == ParseRest(path, rest, Identifier, n, elements + Pending(collected))
  {
    assert FormatElement(AttributeName(n)) + rest == ['.'] + (Escape(n) + rest);
    StepSeparator(path, '.', Escape(n) + rest, state, collected, elements);
    ParseEscaped(path, n, rest, "", elements + Pending(collected));
    assert "" + n == n;
  }

  lemma ParseFormattedIndex(path: string, k: nat, rest: string, state: ParseState,
                            collected: string, elements: seq<PathElement>)
    requires (state == Identifier && |collected| > 0) || (state == ControlCharacter && collected == "")
    ensures ParseRest(path, FormatElement(ListIndex(k)) + rest, state, collected, elements)
         == ParseRest(path, rest, ControlCharacter, "", elements + Pending(collected) + [ListIndex(k)])
  {
    var digits := NatToString(k);
    var done := elements + Pending(collected);
    assert FormatElement(ListIndex(k)) + rest == ['['] + (digits + ("]" + rest));
    StepSeparator(path, '[', digits + ("]" + rest), state, collected, elements);
    ParseDigits(path, digits, "]" + rest, "", done);
    assert "" + digits == digits;
    ParseNatToString(k);
    assert ("]" + rest)[0] == ']' && ("]" + rest)[1..] == rest;
  }

  /** After a name (state Identifier, name collected) or after an index (state
      ControlCharacter, nothing collected), the rendering of the remaining elements
      parses back to exactly those elements. */
  lemma {:induction false} ParseFormatTail(path: string, tail: seq<PathElement>, state: ParseState,
                                           collected: string, elements: seq<PathElement>)
    requires NamesNonEmpty(tail)
    requires (state == Identifier && |collected| > 0) || (state == ControlCharacter && collected == "")
    ensures ParseRest(path, FormatTail(tail), state, collected, elements)
         == Ok(elements + Pending(collected) + tail)
    decreases |tail|
  {
    if |tail| > 0 {
      var rest := FormatTail(tail[1..]);
      var done := elements + Pending(collected);
      NamesNonEmptyTail(tail);
      assert FormatTail(tail) == FormatElement(tail[0]) + rest;
      if tail[0].AttributeName? {
        var n := tail[0].name;
        FormatTailStart(tail[1..]);
        ParseFormattedName(path, n, rest, state, collected, elements);
        ParseFormatTail(path, tail[1..], Identifier, n, done);
        ConsAssoc(done, tail);
        assert tail[0] == AttributeName(n);
        assert ParseRest(path, FormatTail(tail), state, collected, elements)
            == ParseRest(path, rest, Identifier, n, done);
        assert ParseRest(path, rest, Identifier, n, done) == Ok(done + Pending(n) + tail[1..]);
      } else {
        ParseFormattedIndex(path, tail[0].index, rest, state, collected, elements);
        ParseFormatTail(path, tail[1..], ControlCharacter, "", done + [tail[0]]);
        ConsAssoc(done, tail);
        assert tail[0] == ListIndex(tail[0].index);
        assert ParseRest(path, FormatTail(tail), state, collected, elements)
            == ParseRest(path, rest, ControlCharacter, "", done + [tail[0]]);
      }
    } else {
      assert elements + Pending(collected) + tail == elements + Pending(collected);
    }
  }

  lemma NamesNonEmptyTail(tail: seq<PathElement>)
    requires |tail| > 0 && NamesNonEmpty(tail)
    ensures NamesNonEmpty(tail[1..])
    ensures tail[0].AttributeName? ==> |tail[0].name| > 0
  {
    forall k | 0 <= k < |tail[1..]| && tail[1..][k].AttributeName?
      ensures |tail[1..][k].name| > 0
    {
      assert tail[1..][k] == tail[k + 1];
    }
  }

  lemma ConsAssoc(done: seq<PathElement>, tail: seq<PathElement>)
    requires |tail| > 0
    ensures done + [tail[0]] + tail[1..] == done + tail
    ensures tail[0].AttributeName? && |tail[0].name| > 0 ==>
              done + Pending(tail[0].name) + tail[1..] == done + tail
    ensures done + [tail[0]] + Pending("") + tail[1..] == done + tail
  {
    assert tail == [tail[0]] + tail[1..];
  }

  /** Round trip: every well-formed path is parsed back from its rendering. */
  lemma ParseFormat(elements: seq<PathElement>)
    requires WellFormed(elements)
    ensures ParsePathSpec(Format(elements)) == Ok(elements)
  {
    if |elements| > 0 {
      var path := Format(elements);
      var n := elements[0].name;
      var tail := elements[1..];
      ParseEscaped(path, n, FormatTail(tail), "", []);
      assert "" + n == n;
      assert NamesNonEmpty(tail) by {
        forall k | 0 <= k < |tail| && tail[k].AttributeName? ensures |tail[k].name| > 0 {
          assert tail[k] == elements[k + 1];
        }
      }
      ParseFormatTail(path, tail, Identifier, n, []);
      assert [] + Pending(n) + tail == elements;
    }
  }

  // ---------------------------------------------------------------------------
  // Dotted paths of plain identifiers

  predicate Plain(name: string)
  {
    forall k :: 0 <= k < |name| ==> !IsControl(name[k])
  }

  lemma {:induction false} EscapePlain(name: string)
    requires Plain(name)
    ensures Escape(name) == name
    decreases |name|
  {
    if |name| > 0 {
      EscapePlain(name[1..]);
      assert name == [name[0]] + name[1..];
    }
  }

  function Names(names: seq<string>): (r: seq<PathElement>)
    ensures |r| == |names|
    ensures forall k :: 0 <= k < |names| ==> r[k] == AttributeName(names[k])
  {
    seq(|names|, k requires 0 <= k < |names| => AttributeName(names[k]))
  }

  lemma {:induction false} FormatTailSnoc(elements: seq<PathElement>, e: PathElement)
    ensures FormatTail(elements + [e]) == FormatTail(elements) + FormatElement(e)
    decreases |elements|
  {
    if |elements| == 0 {
      assert ([e])[1..] == [];
    } else {
      assert (elements + [e])[1..] == elements[1..] + [e];
      FormatTailSnoc(elements[1..], e);
    }
  }

  lemma NamesSnoc(names: seq<string>, last: string)
    requires |names| > 0
    ensures Names(names + [last])[1..] == Names(names)[1..] + [AttributeName(last)]
  {
  }

  lemma FormatSnoc(small: seq<PathElement>, big: seq<PathElement>, last: string)
    requires |small| > 0 && |big| > 0 && WellFormed(small) && WellFormed(big)
    requires big[0] == small[0]
    requires FormatTail(big[1..]) == FormatTail(small[1..]) + FormatElement(AttributeName(last))
    requires Escape(last) == last
    ensures Format(big) == Format(small) + "." + last
  {
    var first := Escape(small[0].name);
    var t := FormatTail(small[1..]);
    assert FormatElement(AttributeName(last)) == "." + last;
    assert Format(big) == first + (t + ("." + last));
  }

  lemma {:induction false} JoinIsFormat(names: seq<string>)
    requires |names| > 0
    requires forall k :: 0 <= k < |names| ==> |names[k]| > 0 && Plain(names[k])
    ensures WellFormed(Names(names))
    ensures Join(names, ".") == Format(Names(names))
    decreases |names|
  {
    if |names| == 1 {
      EscapePlain(names[0]);
      assert Names(names)[1..] == [];
    } else {
      var init := names[..|names| - 1];
      var last := names[|names| - 1];
      assert names == init + [last];
      JoinIsFormat(init);
      EscapePlain(last);
      NamesSnoc(init, last);
      FormatTailSnoc(Names(init)[1..], AttributeName(last));
      JoinSnoc(init, ".", last);
      FormatSnoc(Names(init), Names(names), last);
    }
  }

  /** A dotted path of plain identifiers yields one name per segment, in order. */
  lemma ParseDottedPath(names: seq<string>)
    requires |names| > 0
    requires forall k :: 0 <= k < |names| ==> |names[k]| > 0 && Plain(names[k])
    ensures ParsePathSpec(Join(names, ".")) == Ok(Names(names))
  {
    JoinIsFormat(names);
    ParseFormat(Names(names));
  }

  // ---------------------------------------------------------------------------
  // Error cases

  /** A `.` or `[` met while no name has been collected throws, e.g. a leading
      `.` or `[` or the second dot of `a..b`. */
  lemma ControlWithoutName(path: string, rest: string, c: char, elements: seq<PathElement>)
    requires c == '.' || c == '['
    ensures ParseRest(path, [c] + rest, Identifier, "", elements) == Err(InvalidControlCharacter(path))
  {
  }

  lemma LeadingControlCharacter(path: string)
    requires |path| > 0 && (path[0] == '.' || path[0] == '[')
    ensures ParsePathSpec(path) == Err(InvalidControlCharacter(path))
  {
    assert path == [path[0]] + path[1..];
    ControlWithoutName(path, path[1..], path[0], []);
  }

  lemma DoubleDot()
    ensures ParsePathSpec("a..b") == Err(InvalidControlCharacter("a..b"))
  {
  }

  /** Inside brackets, a character that is neither a digit nor `]` throws. */
  lemma NonDigitInBrackets(name: string, digits: string, c: char, rest: string)
    requires |name| > 0 && Plain(name) && AllDigits(digits)
    requires !IsDigit(c) && c != ']'
    ensures var path := name + "[" + digits + [c] + rest;
            ParsePathSpec(path) == Err(InvalidArrayIndexCharacter(c, path))
  {
    var path := name + "[" + digits + [c] + rest;
    EscapePlain(name);
    assert path == Escape(name) + ("[" + digits + [c] + rest);
    ParseEscaped(path, name, "[" + digits + [c] + rest, "", []);
    assert "" + name == name;
    assert "[" + digits + [c] + rest == ['['] + (digits + ([c] + rest));
    StepSeparator(path, '[', digits + ([c] + rest), Identifier, name, []);
    assert [] + Pending(name) == [AttributeName(name)];
    ParseDigits(path, digits, [c] + rest, "", [AttributeName(name)]);
    assert "" + digits == digits;
    assert ([c] + rest)[0] == c;
    calc {
      ParsePathSpec(path);
      ParseRest(path, Escape(name) + ("[" + digits + [c] + rest), Identifier, "", []);
      ParseRest(path, "[" + digits + [c] + rest, Identifier, name, []);
      ParseRest(path, digits + ([c] + rest), ListIndexState, "", [AttributeName(name)]);
      ParseRest(path, [c] + rest, ListIndexState, digits, [AttributeName(name)]);
    }
  }

  /** `[]` throws because an empty index does not parse. */
  lemma EmptyBrackets(name: string, rest: string)
    requires |name| > 0 && Plain(name)
    ensures var path := name + "[]" + rest;
            ParsePathSpec(path) == Err(InvalidArrayIndex("", path))
  {
    var path := name + "[]" + rest;
    EscapePlain(name);
    assert path == Escape(name) + ("[]" + rest);
    ParseEscaped(path, name, "[]" + rest, "", []);
    assert "" + name == name;
    assert "[]" + rest == ['['] + ("]" + rest);
    StepSeparator(path, '[', "]" + rest, Identifier, name, []);
  }

  lemma ConcatFour(name: string, digits: string, c: char, rest: string)
    ensures name + "[" + digits + "]" + [c] + rest == name + ("[" + digits + "]" + ([c] + rest))
  {
  }

  /** After `]`, only `[` or `.` may follow. */
  lemma BareIdentifierAfterIndex(name: string, k: nat, c: char, rest: string)
    requires |name| > 0 && Plain(name)
    requires c != '[' && c != '.'
    ensures var path := name + "[" + NatToString(k) + "]" + [c] + rest;
            ParsePathSpec(path) == Err(BareIdentifier(path))
  {
    var path := name + "[" + NatToString(k) + "]" + [c] + rest;
    var tail := [c] + rest;
    EscapePlain(name);
    ConcatFour(name, NatToString(k), c, rest);
    assert path == Escape(name) + (FormatElement(ListIndex(k)) + tail);
    ParseEscaped(path, name, FormatElement(ListIndex(k)) + tail, "", []);
    assert "" + name == name;
    ParseFormattedIndex(path, k, tail, Identifier, name, []);
    assert tail[0] == c;
  }

  /** A backslash before any character other than `.`, `[` or `\` is kept as part of the name. */
  lemma BackslashKept(path: string, c: char, rest: string, collected: string, elements: seq<PathElement>)
    requires !IsControl(c)
    ensures ParseRest(path, ['\\', c] + rest, Identifier, collected, elements)
         == ParseRest(path, [c] + rest, Identifier, collected + ['\\'], elements)
  {
    assert (['\\', c] + rest)[1..] == [c] + rest;
  }

  /** A backslash before `.`, `[` or `\` adds that character literally. */
  lemma BackslashEscapes(path: string, c: char, rest: string, collected: string, elements: seq<PathElement>)
    requires IsControl(c)
    ensures ParseRest(path, ['\\', c] + rest, Identifier, collected, elements)
         == ParseRest(path, rest, Identifier, collected + [c], elements)
  {
    assert (['\\', c] + rest)[2..] == rest;
  }

  lemma FormatTailCons(e: PathElement, rest: seq<PathElement>)
    ensures FormatTail([e] + rest) == FormatElement(e) + FormatTail(rest)
  {
    assert ([e] + rest)[1..] == rest;
  }

  lemma EscapeLetter(c: char)
    requires !IsControl(c)
    ensures Escape([c]) == [c]
  {
    assert [c][1..] == [];
  }

  lemma NestedPathTail()
    ensures FormatTail([AttributeName("b"), ListIndex(3), AttributeName("c")]) == ".b[3].c"
  {
    EscapeLetter('b');
    EscapeLetter('c');
    assert NatToString(3) == "3";
    FormatTailCons(AttributeName("c"), []);
    FormatTailCons(ListIndex(3), [AttributeName("c")]);
    FormatTailCons(AttributeName("b"), [ListIndex(3), AttributeName("c")]);
    assert [AttributeName("b")] + [ListIndex(3), AttributeName("c")]
        == [AttributeName("b"), ListIndex(3), AttributeName("c")];
    assert [ListIndex(3)] + [AttributeName("c")] == [ListIndex(3), AttributeName("c")];
  }

  lemma NestedPathText()
    ensures "a" + ".b[3].c" == "a.b[3].c"
  {
  }

  lemma ExampleNestedPath()
    ensures ParsePathSpec("a.b[3].c")
         == Ok([AttributeName("a"), AttributeName("b"), ListIndex(3), AttributeName("c")])
  {
    var els := [AttributeName("a"), AttributeName("b"), ListIndex(3), AttributeName("c")];
    EscapeLetter('a');
    NestedPathTail();
    assert els[1..] == [AttributeName("b"), ListIndex(3), AttributeName("c")];
    assert Format(els) == "a" + ".b[3].c";
    NestedPathText();
    ParseFormat(els);
  }

  lemma ExampleEscapedDot()
    ensures ParsePathSpec("a\\.b") == Ok([AttributeName("a.b")])
  {
    assert Escape("b") == "b";
    assert Escape(".b") == "\\.b";
    assert Escape("a.b") == "a\\.b";
    assert Format([AttributeName("a.b")]) == "a\\.b";
    ParseFormat([AttributeName("a.b")]);
  }
}
