/** Image extraction from the upstream's event stream. Strings are sequences of Unicode code
    points; where the program counts bytes, so does the model. */
module Upstream {
  import opened Wrappers
  import opened Text

  datatype Json =
    | Null
    | Bool(b: bool)
    | Number(n: int)
    | Str(s: string)
    | List(items: seq<Json>)
    | Object(fields: map<string, Json>)

  // ---- the result field ----

  const MIN_RESULT_LENGTH := 1000

  /** What counts as image data: a PNG signature in base64, or just a long string. */
  predicate Qualifies(s: string) {
    HasPrefix(s, "iVBOR") || ByteLength(s) > MIN_RESULT_LENGTH
  }

  /** Some `result` field at some depth holds this qualifying string. */
  ghost predicate HasResult(obj: Json, found: string) {
    match obj
    case Object(fields) =>
      || ("result" in fields && fields["result"] == Str(found) && Qualifies(found))
      || (exists key :: key in fields && HasResult(fields[key], found))
    case List(items) => exists i :: 0 <= i < |items| && HasResult(items[i], found)
    case _ => false
  }

  lemma {:induction false} ResultsQualify(obj: Json, found: string)
    requires HasResult(obj, found)
    ensures Qualifies(found) && found != ""
  {
    match obj
    case Object(fields) =>
      if !("result" in fields && fields["result"] == Str(found) && Qualifies(found)) {
        var key :| key in fields && HasResult(fields[key], found);
        ResultsQualify(fields[key], found);
      }
    case List(items) =>
      var i :| 0 <= i < |items| && HasResult(items[i], found);
      ResultsQualify(items[i], found);
    case _ =>
  }

  /** What counts, by example: a `result` field with a PNG signature or more than a thousand bytes,
      directly or at any depth. */
  lemma ResultCounts(s: string)
    ensures HasResult(Object(map["result" := Str(s)]), s) <==> "iVBOR" <= s || ByteLength(s) > 1000
  {
    var obj := Object(map["result" := Str(s)]);
    assert obj.fields["result"] == Str(s) && !HasResult(Str(s), s);
  }

  /** The recursive search. The fields of an object are visited in an arbitrary order, chosen
      afresh at every object; whatever the order, a non-empty answer is the value of some
      qualifying `result` field and an empty answer means there is none. */
  method FindResultBase64(obj: Json) returns (found: string)
    ensures found != "" ==> HasResult(obj, found)
    ensures found == "" ==> forall s :: !HasResult(obj, s)
    decreases obj
  {
    match obj {
      case Object(fields) =>
        var pending := fields.Keys;
        while pending != {}
          invariant pending <= fields.Keys
          invariant "result" in fields && "result" !in pending ==>
                      !(fields["result"].Str? && Qualifies(fields["result"].s))
          invariant forall key, s :: key in fields && key !in pending ==> !HasResult(fields[key], s)
          decreases |pending|
        {
          var key :| key in pending;
          pending := pending - {key};
          var value := fields[key];
          if key == "result" {
            if value.Str? && Qualifies(value.s) {
              return value.s;
            }
          }
          var inner := FindResultBase64(value);
          if inner != "" {
            return inner;
          }
        }
        return "";
      case List(items) =>
        for i := 0 to |items|
          invariant forall k, s :: 0 <= k < i ==> !HasResult(items[k], s)
        {
          var inner := FindResultBase64(items[i]);
          if inner != "" {
            return inner;
          }
        }
        return "";
      case _ =>
        return "";
    }
  }

  // ---- the stream ----

  datatype Outcome =
    | Image(data: string)
    | NetworkError
    | BadBase64
    | BadRequest      // text was produced but no image event was seen
    | NoImage         // the stream ended without an image

  /** The decoders the loop calls: JSON, and standard base64. */
  datatype Codec = Codec(parse: string -> Option<Json>, decode: string -> Option<string>)

  const EVENT_PREFIX := "event: "
  const DATA_PREFIX := "data: "
  const IMAGE_EVENT := "response.image_generation_call"
  const TEXT_EVENT := "response.output_text."

  /** What one line, without its newline, means to the loop. */
  datatype Line = Blank | Event(name: string) | Payload(obj: Json) | Other

  function Classify(c: Codec, line: string): Line {
    var trim := TrimSpace(line);
    if trim == "" then Blank
    else if HasPrefix(trim, EVENT_PREFIX) then Event(TrimSpace(trim[|EVENT_PREFIX|..]))
    else if HasPrefix(trim, DATA_PREFIX) then
      var text := TrimSpace(trim[|DATA_PREFIX|..]);
      if text == "" || text == "[DONE]" then Other
      else match c.parse(text)
           case Some(obj) => Payload(obj)
           case None => Other
    else Other
  }

  /** The lines of a stream: split at newlines; what follows the last newline is a line of its
      own, possibly empty. */
  function Lines(body: string): (lines: seq<string>)
    ensures |lines| >= 1
  {
    SplitOn(body, '\n')
  }

  /** The lines the loop handles: a broken stream loses the unfinished one. */
  function Handled(body: string, broken: bool): seq<string> {
    var lines := Lines(body);
    if broken then lines[..|lines| - 1] else lines
  }

  ghost predicate Decisive(c: Codec, line: string) {
    Classify(c, line).Payload? && exists s :: HasResult(Classify(c, line).obj, s)
  }

  predicate SawImage(c: Codec, lines: seq<string>) {
    exists i :: 0 <= i < |lines| && Classify(c, lines[i]).Event? && HasPrefix(Classify(c, lines[i]).name, IMAGE_EVENT)
  }

  predicate SawText(c: Codec, lines: seq<string>) {
    exists i :: 0 <= i < |lines| && Classify(c, lines[i]).Event? && HasPrefix(Classify(c, lines[i]).name, TEXT_EVENT)
  }

  /** The outcome a line decides: its (some) result, decoded. */
  ghost predicate Decides(c: Codec, line: string, out: Outcome) {
    exists s :: Classify(c, line).Payload? && HasResult(Classify(c, line).obj, s)
                && out == match c.decode(s) case Some(data) => Image(data) case None => BadBase64
  }

  ghost predicate NoHit(c: Codec, lines: seq<string>) {
    forall i :: 0 <= i < |lines| ==> !Decisive(c, lines[i])
  }

  ghost predicate FirstHit(c: Codec, lines: seq<string>, out: Outcome) {
    exists i :: 0 <= i < |lines| && Decides(c, lines[i], out) && NoHit(c, lines[..i])
  }

  function Undecided(c: Codec, lines: seq<string>, broken: bool): Outcome {
    if broken then NetworkError
    else if SawText(c, lines) && !SawImage(c, lines) then BadRequest
    else NoImage
  }

  /** What the stream must yield: the first decisive line decides; without one, a broken stream is
      a network error, and otherwise the events seen tell text-only answers from empty ones. */
  ghost predicate Expected(c: Codec, body: string, broken: bool, out: Outcome) {
    var lines := Handled(body, broken);
    FirstHit(c, lines, out) || (NoHit(c, lines) && out == Undecided(c, lines, broken))
  }

  /** Where the next line ends: at a newline or at the end of what is left. */
  method ReadLine(rest: string) returns (line: string, atEnd: bool, left: string)
    ensures atEnd ==> Lines(rest) == [line] && left == ""
    ensures !atEnd ==> Lines(rest) == [line] + Lines(left) && |left| < |rest|
    ensures !atEnd ==> rest == line + "\n" + left
    ensures atEnd ==> rest == line
    ensures '\n' !in line
  {
    var n := 0;
    while n < |rest| && rest[n] != '\n'
      invariant 0 <= n <= |rest|
      invariant '\n' !in rest[..n]
      decreases |rest| - n
    {
      assert rest[..n + 1] == rest[..n] + [rest[n]];
      n := n + 1;
    }
    line := rest[..n];
    if n == |rest| {
      SplitOnNothing(line, '\n');
      assert line == rest;
      return line, true, "";
    }
    left := rest[n + 1..];
    assert rest == line + "\n" + left;
    SplitOnHead(line, left, '\n');
    return line, false, left;
  }

  /** Where the loop stands: the lines handled so far, none of which decided, and what is left.
      Once the end has been seen nothing is left. */
  ghost predicate Reading(c: Codec, body: string, broken: bool, done: seq<string>, rest: string, ended: bool) {
    && (ended ==> rest == "" && !broken && Lines(body) == done)
    && (!ended ==> Lines(body) == done + Lines(rest))
    && NoHit(c, done)
  }

  lemma NoHitMore(c: Codec, lines: seq<string>, line: string)
    requires NoHit(c, lines) && !Decisive(c, line)
    ensures NoHit(c, lines + [line])
  {
    assert forall i :: 0 <= i < |lines| ==> (lines + [line])[i] == lines[i];
  }

  lemma ReadingAdvances(
    c: Codec, body: string, broken: bool, done: seq<string>, rest: string, line: string, atEnd: bool, left: string)
    requires Reading(c, body, broken, done, rest, false) && !Decisive(c, line) && !(atEnd && broken)
    requires if atEnd then Lines(rest) == [line] && left == "" else Lines(rest) == [line] + Lines(left)
    ensures Reading(c, body, broken, done + [line], left, atEnd)
  {
    NoHitMore(c, done, line);
    if !atEnd {
      assert done + ([line] + Lines(left)) == done + [line] + Lines(left);
    }
  }

  /** The line just read is the next one of the stream. */
  lemma LineInPlace(
    c: Codec, body: string, broken: bool, done: seq<string>, rest: string, line: string, atEnd: bool, left: string)
    requires Reading(c, body, broken, done, rest, false)
    requires if atEnd then Lines(rest) == [line] else Lines(rest) == [line] + Lines(left)
    ensures atEnd && broken ==> Handled(body, broken) == done
    ensures !(atEnd && broken) ==>
              |done| < |Handled(body, broken)| && Handled(body, broken)[|done|] == line
              && Handled(body, broken)[..|done|] == done
  {
    if atEnd {
      assert Lines(body)[..|done|] == done;
    } else {
      assert Lines(body) == done + [line] + Lines(left);
      assert |Lines(left)| >= 1;
    }
  }

  lemma FirstDecides(c: Codec, body: string, broken: bool, done: seq<string>, line: string, out: Outcome)
    requires |done| < |Handled(body, broken)| && Handled(body, broken)[|done|] == line
    requires Handled(body, broken)[..|done|] == done
    requires NoHit(c, done) && Decides(c, line, out)
    ensures Expected(c, body, broken, out)
  {
  }

  /** What a `data: ` line yields, if it decides. */
  method TryPayload(c: Codec, text: string, ghost line: string) returns (out: Option<Outcome>)
    requires text != "" && text != "[DONE]"
    requires Classify(c, line) == match c.parse(text) case Some(obj) => Payload(obj) case None => Other
    ensures out.Some? ==> Decides(c, line, out.value)
    ensures out.None? ==> !Decisive(c, line)
  {
    var obj := c.parse(text);
    if obj.None? {
      return None;
    }
    var b64 := FindResultBase64(obj.value);
    if b64 == "" {
      return None;
    }
    var data := c.decode(b64);
    return Some(if data.Some? then Image(data.value) else BadBase64);
  }

  lemma SawMore(c: Codec, lines: seq<string>, line: string)
    ensures SawImage(c, lines + [line]) <==>
              SawImage(c, lines) || (Classify(c, line).Event? && HasPrefix(Classify(c, line).name, IMAGE_EVENT))
    ensures SawText(c, lines + [line]) <==>
              SawText(c, lines) || (Classify(c, line).Event? && HasPrefix(Classify(c, line).name, TEXT_EVENT))
  {
    var all := lines + [line];
    assert all[|lines|] == line;
    assert forall i :: 0 <= i < |lines| ==> all[i] == lines[i];
  }

  /** The reading loop, with its several ways round. It terminates on every finite stream: a line
      that ends the stream without breaking the loop is followed by one empty read. */
  method CallResponses(c: Codec, body: string, broken: bool) returns (out: Outcome)
    ensures Expected(c, body, broken, out)
  {
    var sawImageEvent, sawTextEvent := false, false;
    var rest := body;
    ghost var done: seq<string>, ended := [], false;
    while true
      invariant Reading(c, body, broken, done, rest, ended)
      invariant sawImageEvent == SawImage(c, done)
      invariant sawTextEvent == SawText(c, done)
      decreases !ended, |rest|
    {
      var line, atEnd, left := ReadLine(rest);
      if atEnd && broken {
        LineInPlace(c, body, broken, done, rest, line, atEnd, left);
        return NetworkError;
      }
      ghost var was, here, over := rest, done, ended;
      rest := left;
      if !over {
        LineInPlace(c, body, broken, here, was, line, atEnd, left);
        SawMore(c, here, line);
        done, ended := here + [line], atEnd;
      }
      var trim := TrimSpace(line);
      if trim == "" {
        if !over {
          ReadingAdvances(c, body, broken, here, was, line, atEnd, left);
        }
        if atEnd {
          break;
        }
        continue;
      }
      if HasPrefix(trim, EVENT_PREFIX) {
        var name := TrimSpace(trim[|EVENT_PREFIX|..]);
        if HasPrefix(name, IMAGE_EVENT) {
          sawImageEvent := true;
        }
        if HasPrefix(name, TEXT_EVENT) {
          sawTextEvent := true;
        }
        ReadingAdvances(c, body, broken, here, was, line, atEnd, left);
        continue;
      }
      if HasPrefix(trim, DATA_PREFIX) {
        var text := TrimSpace(trim[|DATA_PREFIX|..]);
        if text == "" || text == "[DONE]" {
          ReadingAdvances(c, body, broken, here, was, line, atEnd, left);
          continue;
        }
        var decided := TryPayload(c, text, line);
        if decided.Some? {
          FirstDecides(c, body, broken, here, line, decided.value);
          return decided.value;
        }
      }
      ReadingAdvances(c, body, broken, here, was, line, atEnd, left);
      if atEnd {
        break;
      }
    }
    if !sawImageEvent && sawTextEvent {
      return BadRequest;
    }
    return NoImage;
  }

  // ---- what a line says, as text ----

  /** The line is the prefix followed by the text, with this white space around and in between. */
  predicate Around(line: string, prefix: string, text: string, l: string, gap: string, r: string) {
    AllSpace(l) && AllSpace(gap) && AllSpace(r) && line == l + (prefix + gap + text) + r
  }

  /** The line is the prefix followed by this text, in some white space. */
  ghost predicate Carries(line: string, prefix: string, text: string) {
    text != "" && IsTrimmed(text) && exists l, gap, r :: Around(line, prefix, text, l, gap, r)
  }

  /** Trimming, testing for the prefix and trimming again finds what the line carries. */
  lemma CarriedIsRead(line: string, prefix: string, text: string)
    requires prefix != "" && !IsSpace(prefix[0]) && Carries(line, prefix, text)
    ensures HasPrefix(TrimSpace(line), prefix) && TrimSpace(TrimSpace(line)[|prefix|..]) == text
  {
    var l, gap, r :| Around(line, prefix, text, l, gap, r);
    var core := prefix + gap + text;
    assert core[0] == prefix[0] && core[|core| - 1] == text[|text| - 1];
    TrimSpaceFinds(l, core, r);
    assert core[|prefix|..] == gap + text + "";
    TrimSpaceFinds(gap, text, "");
  }

  lemma Regroup(l: string, prefix: string, gap: string, text: string, after: string, r: string)
    ensures l + (prefix + (gap + text + after)) + r == l + (prefix + gap + text) + (after + r)
  {
    var core := prefix + gap + text;
    assert prefix + (gap + text + after) == core + after;
    assert l + (core + after) + r == l + core + (after + r);
  }

  /** What is found in this way the line carries. */
  lemma ReadIsCarried(line: string, prefix: string, text: string)
    requires HasPrefix(TrimSpace(line), prefix) && TrimSpace(TrimSpace(line)[|prefix|..]) == text && text != ""
    ensures Carries(line, prefix, text)
  {
    var trim := TrimSpace(line);
    var l, r := TrimSpaceKeepsCore(line);
    var gap, after := TrimSpaceKeepsCore(trim[|prefix|..]);
    assert trim == prefix + (gap + text + after);
    Regroup(l, prefix, gap, text, after, r);
    assert Around(line, prefix, text, l, gap, after + r);
  }

  /** The text is JSON with a qualifying `result` field somewhere. */
  ghost predicate ParsesToResult(c: Codec, text: string) {
    c.parse(text).Some? && exists s :: HasResult(c.parse(text).value, s)
  }

  /** A line with an image: `data: ` and JSON that has a result. */
  ghost predicate ResultLine(c: Codec, line: string) {
    exists text :: Carries(line, "data: ", text) && text != "[DONE]" && ParsesToResult(c, text)
  }

  /** A line that names an event beginning like this. */
  ghost predicate EventLine(line: string, start: string) {
    exists name :: Carries(line, "event: ", name) && start <= name
  }

  lemma CarriedTextIsRead(c: Codec, line: string)
    ensures forall text :: text != "" && IsTrimmed(text) ==>
              && (Carries(line, "data: ", text) <==>
                    HasPrefix(TrimSpace(line), "data: ") && TrimSpace(TrimSpace(line)[6..]) == text)
              && (Carries(line, "event: ", text) <==>
                    HasPrefix(TrimSpace(line), "event: ") && TrimSpace(TrimSpace(line)[7..]) == text)
  {
    forall text | text != "" && IsTrimmed(text)
      ensures Carries(line, "data: ", text) <==>
                HasPrefix(TrimSpace(line), "data: ") && TrimSpace(TrimSpace(line)[6..]) == text
      ensures Carries(line, "event: ", text) <==>
                HasPrefix(TrimSpace(line), "event: ") && TrimSpace(TrimSpace(line)[7..]) == text
    {
      if Carries(line, "data: ", text) {
        CarriedIsRead(line, "data: ", text);
      } else if HasPrefix(TrimSpace(line), "data: ") && TrimSpace(TrimSpace(line)[6..]) == text {
        ReadIsCarried(line, "data: ", text);
      }
      if Carries(line, "event: ", text) {
        CarriedIsRead(line, "event: ", text);
      } else if HasPrefix(TrimSpace(line), "event: ") && TrimSpace(TrimSpace(line)[7..]) == text {
        ReadIsCarried(line, "event: ", text);
      }
    }
  }

  /** A line decides exactly if it is a result line. */
  lemma DecisiveIffResultLine(c: Codec, line: string)
    ensures Decisive(c, line) <==> ResultLine(c, line)
  {
    CarriedTextIsRead(c, line);
    if Decisive(c, line) {
      var text := TrimSpace(TrimSpace(line)[6..]);
      assert Carries(line, "data: ", text) && ParsesToResult(c, text);
    }
  }

  /** A line counts as an event of a kind exactly if it names one. */
  lemma EventIffEventLine(c: Codec, line: string, start: string)
    requires start != ""
    ensures Classify(c, line).Event? && HasPrefix(Classify(c, line).name, start) <==> EventLine(line, start)
  {
    CarriedTextIsRead(c, line);
    if Classify(c, line).Event? && HasPrefix(Classify(c, line).name, start) {
      assert Carries(line, "event: ", Classify(c, line).name);
    }
  }

  lemma SawIffEventLine(c: Codec, lines: seq<string>)
    ensures SawImage(c, lines) <==>
              exists i :: 0 <= i < |lines| && EventLine(lines[i], "response.image_generation_call")
    ensures SawText(c, lines) <==> exists i :: 0 <= i < |lines| && EventLine(lines[i], "response.output_text.")
  {
    forall i | 0 <= i < |lines|
      ensures Classify(c, lines[i]).Event? && HasPrefix(Classify(c, lines[i]).name, IMAGE_EVENT) <==>
                EventLine(lines[i], "response.image_generation_call")
      ensures Classify(c, lines[i]).Event? && HasPrefix(Classify(c, lines[i]).name, TEXT_EVENT) <==>
                EventLine(lines[i], "response.output_text.")
    {
      EventIffEventLine(c, lines[i], IMAGE_EVENT);
      EventIffEventLine(c, lines[i], TEXT_EVENT);
    }
  }

  lemma NoHitIffNoResultLine(c: Codec, lines: seq<string>)
    ensures NoHit(c, lines) <==> forall i :: 0 <= i < |lines| ==> !ResultLine(c, lines[i])
  {
    forall i | 0 <= i < |lines|
      ensures Decisive(c, lines[i]) <==> ResultLine(c, lines[i])
    {
      DecisiveIffResultLine(c, lines[i]);
    }
  }

  lemma OnePrefix(s: string)
    ensures !(HasPrefix(s, "data: ") && HasPrefix(s, "event: "))
  {
    if HasPrefix(s, "data: ") {
      assert s[0] == 'd';
    }
    if HasPrefix(s, "event: ") {
      assert s[0] == 'e';
    }
  }

  /** `data: ` and some text, in any white space: an image is decided exactly if the JSON decoder
      makes something with a result of this very text. Such a line names no event. */
  lemma DataLine(c: Codec, l: string, text: string, r: string)
    requires AllSpace(l) && AllSpace(r) && IsTrimmed(text) && text != "" && text != "[DONE]"
    ensures ResultLine(c, l + "data: " + text + r) <==> ParsesToResult(c, text)
    ensures forall start :: !EventLine(l + "data: " + text + r, start)
  {
    var line := l + "data: " + text + r;
    assert Around(line, "data: ", text, l, "", r);
    assert Carries(line, "data: ", text);
    CarriedTextIsRead(c, line);
    OnePrefix(TrimSpace(line));
  }

  /** `event: ` and a name, in any white space: the kind is what the name begins with. Such a line
      decides nothing. */
  lemma NamedEventLine(c: Codec, l: string, name: string, r: string, start: string)
    requires AllSpace(l) && AllSpace(r) && IsTrimmed(name) && name != ""
    ensures EventLine(l + "event: " + name + r, start) <==> start <= name
    ensures !ResultLine(c, l + "event: " + name + r)
  {
    var line := l + "event: " + name + r;
    assert Around(line, "event: ", name, l, "", r);
    assert Carries(line, "event: ", name);
    CarriedTextIsRead(c, line);
    OnePrefix(TrimSpace(line));
  }

  /** Any other line changes nothing. */
  lemma OtherLine(c: Codec, line: string)
    requires !HasPrefix(TrimSpace(line), "data: ") && !HasPrefix(TrimSpace(line), "event: ")
    ensures !ResultLine(c, line) && forall start :: !EventLine(line, start)
  {
    CarriedTextIsRead(c, line);
  }

  // ---- consequences ----

  lemma HitIsDecisive(c: Codec, lines: seq<string>, out: Outcome)
    requires FirstHit(c, lines, out)
    ensures !NoHit(c, lines) && (out.Image? || out == BadBase64)
  {
    var i :| 0 <= i < |lines| && Decides(c, lines[i], out) && NoHit(c, lines[..i]);
    assert Decisive(c, lines[i]);
  }

  /** The error is bad_request exactly when no line holds a result and a text event but no image
      event was seen. */
  lemma BadRequestIff(c: Codec, body: string, out: Outcome)
    requires Expected(c, body, false, out)
    ensures var lines := Lines(body);
            out == BadRequest <==>
              && (forall i :: 0 <= i < |lines| ==> !ResultLine(c, lines[i]))
              && (exists i :: 0 <= i < |lines| && EventLine(lines[i], "response.output_text."))
              && !(exists i :: 0 <= i < |lines| && EventLine(lines[i], "response.image_generation_call"))
  {
    NoHitIffNoResultLine(c, Lines(body));
    SawIffEventLine(c, Lines(body));
    if FirstHit(c, Lines(body), out) {
      HitIsDecisive(c, Lines(body), out);
    }
  }

  /** An image is only ever decoded from a result of the first line that holds one. */
  lemma ImageComesFromFirstResult(c: Codec, body: string, broken: bool, data: string)
    returns (i: nat, text: string, found: string)
    requires Expected(c, body, broken, Image(data))
    ensures i < |Handled(body, broken)| && forall k :: 0 <= k < i ==> !ResultLine(c, Handled(body, broken)[k])
    ensures Carries(Handled(body, broken)[i], "data: ", text) && text != "[DONE]" && c.parse(text).Some?
    ensures HasResult(c.parse(text).value, found) && c.decode(found) == Some(data)
  {
    var lines := Handled(body, broken);
    i :| 0 <= i < |lines| && Decides(c, lines[i], Image(data)) && NoHit(c, lines[..i]);
    NoHitIffNoResultLine(c, lines[..i]);
    assert forall k :: 0 <= k < i ==> lines[..i][k] == lines[k];
    found :| Classify(c, lines[i]).Payload? && HasResult(Classify(c, lines[i]).obj, found)
             && Image(data) == match c.decode(found) case Some(d) => Image(d) case None => BadBase64;
    text := TrimSpace(TrimSpace(lines[i])[6..]);
    CarriedTextIsRead(c, lines[i]);
  }

  /** The stream has an image (or bad image data) exactly when some line holds a result. */
  lemma DecidedIffSomeResult(c: Codec, body: string, broken: bool, out: Outcome)
    requires Expected(c, body, broken, out)
    ensures (out.Image? || out == BadBase64) <==>
              exists i :: 0 <= i < |Handled(body, broken)| && ResultLine(c, Handled(body, broken)[i])
  {
    NoHitIffNoResultLine(c, Handled(body, broken));
    if FirstHit(c, Handled(body, broken), out) {
      HitIsDecisive(c, Handled(body, broken), out);
    }
  }

  /** Without a result line a broken stream is a network error, and one that ends, without the events
      of a text answer, has no image. */
  lemma UndecidedIff(c: Codec, body: string, broken: bool, out: Outcome)
    requires Expected(c, body, broken, out)
    ensures var lines := Handled(body, broken);
            var noResult := forall i :: 0 <= i < |lines| ==> !ResultLine(c, lines[i]);
            var text := exists i :: 0 <= i < |lines| && EventLine(lines[i], "response.output_text.");
            var image := exists i :: 0 <= i < |lines| && EventLine(lines[i], "response.image_generation_call");
            && (out == NetworkError <==> noResult && broken)
            && (out == NoImage <==> noResult && !broken && (text ==> image))
  {
    NoHitIffNoResultLine(c, Handled(body, broken));
    SawIffEventLine(c, Handled(body, broken));
    if FirstHit(c, Handled(body, broken), out) {
      HitIsDecisive(c, Handled(body, broken), out);
    }
  }

  /** Bad image data is reported only if a result of the first line that holds one cannot be decoded. */
  lemma BadDataComesFromFirstResult(c: Codec, body: string, broken: bool)
    returns (i: nat, text: string, found: string)
    requires Expected(c, body, broken, BadBase64)
    ensures i < |Handled(body, broken)| && forall k :: 0 <= k < i ==> !ResultLine(c, Handled(body, broken)[k])
    ensures Carries(Handled(body, broken)[i], "data: ", text) && text != "[DONE]" && c.parse(text).Some?
    ensures HasResult(c.parse(text).value, found) && c.decode(found) == None
  {
    var lines := Handled(body, broken);
    i :| 0 <= i < |lines| && Decides(c, lines[i], BadBase64) && NoHit(c, lines[..i]);
    NoHitIffNoResultLine(c, lines[..i]);
    assert forall k :: 0 <= k < i ==> lines[..i][k] == lines[k];
    found :| Classify(c, lines[i]).Payload? && HasResult(Classify(c, lines[i]).obj, found)
             && BadBase64 == match c.decode(found) case Some(d) => Image(d) case None => BadBase64;
    text := TrimSpace(TrimSpace(lines[i])[6..]);
    CarriedTextIsRead(c, lines[i]);
  }

  lemma {:induction false} LinesAppendNewline(body: string)
    ensures Lines(body + "\n") == Lines(body) + [""]
  {
    if body == "" {
      assert (body + "\n")[1..] == "";
    } else {
      assert (body + "\n")[1..] == body[1..] + "\n";
      LinesAppendNewline(body[1..]);
    }
  }

  /** A blank line at the end does not change what is expected. */
  lemma BlankLineIrrelevant(c: Codec, lines: seq<string>, out: Outcome)
    ensures !Decisive(c, "") && !Decides(c, "", out)
    ensures SawImage(c, lines + [""]) == SawImage(c, lines) && SawText(c, lines + [""]) == SawText(c, lines)
  {
    assert Classify(c, "") == Blank;
    SawMore(c, lines, "");
  }

  lemma HitsWithBlankLine(c: Codec, lines: seq<string>, out: Outcome)
    ensures FirstHit(c, lines + [""], out) <==> FirstHit(c, lines, out)
    ensures NoHit(c, lines + [""]) <==> NoHit(c, lines)
  {
    var more := lines + [""];
    BlankLineIrrelevant(c, lines, out);
    assert more[|lines|] == "";
    assert forall i :: 0 <= i < |lines| ==> more[i] == lines[i] && more[..i] == lines[..i];
  }

  /** A final newline makes no difference. */
  lemma FinalNewlineIrrelevant(c: Codec, body: string, out: Outcome)
    ensures Expected(c, body, false, out) <==> Expected(c, body + "\n", false, out)
  {
    LinesAppendNewline(body);
    HitsWithBlankLine(c, Lines(body), out);
    BlankLineIrrelevant(c, Lines(body), out);
  }
}
