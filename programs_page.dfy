/** The admin page for programmes: the bullet-point boxes (one bullet per line), the
    blank form a new programme starts from, the edit handlers, and which API call a save
    makes. */
module ProgramsPage {
  import opened Common
  import opened Js
  import Text

  /* ---------- Bullet points ---------- */

  /** `lines.filter(b => b.trim())`: the lines that are not blank, in order. */
  function NonBlank(lines: seq<string>): seq<string> {
    if |lines| == 0 then []
    else if Text.IsBlank(lines[0]) then NonBlank(lines[1..])
    else [lines[0]] + NonBlank(lines[1..])
  }

  /** `handleBulletsChange`'s parse: the text split at line breaks, blank lines dropped,
      the others kept as they are. */
  function ParseBullets(text: string): seq<string> {
    NonBlank(Text.Split(text, '\n'))
  }

  /** `bullets?.join('\n') || ''`: the text a bullet box shows. */
  function DisplayBullets(v: JsValue): string
    requires v.JStrs? || v == JUndefined || v == JNull
  {
    if v.JStrs? then Text.Join(v.items, '\n') else ""
  }

  /** A list the box can show back: no bullet holds a line break or is blank. */
  predicate WellFormedBullets(bullets: seq<string>) {
    forall i :: 0 <= i < |bullets| ==> '\n' !in bullets[i] && !Text.IsBlank(bullets[i])
  }

  /** Filtering keeps exactly the non-blank lines, each unchanged. */
  lemma {:induction false} NonBlankSpec(lines: seq<string>)
    ensures forall b :: b in NonBlank(lines) <==> b in lines && !Text.IsBlank(b)
    ensures |NonBlank(lines)| <= |lines|
    decreases |lines|
  {
    if |lines| > 0 {
      NonBlankSpec(lines[1..]);
      assert lines == [lines[0]] + lines[1..];
    }
  }

  /** Filtering works line by line, so the kept lines stay in their order. */
  lemma {:induction false} NonBlankAppend(a: seq<string>, b: seq<string>)
    ensures NonBlank(a + b) == NonBlank(a) + NonBlank(b)
    decreases |a|
  {
    if |a| > 0 {
      assert (a + b)[1..] == a[1..] + b;
      NonBlankAppend(a[1..], b);
    } else {
      assert a + b == b;
    }
  }

  /** Lines with no blank among them are all kept. */
  lemma {:induction false} NonBlankKeepsAll(lines: seq<string>)
    requires forall i :: 0 <= i < |lines| ==> !Text.IsBlank(lines[i])
    ensures NonBlank(lines) == lines
    decreases |lines|
  {
    if |lines| > 0 {
      NonBlankKeepsAll(lines[1..]);
    }
  }

  /** Every parsed bullet is a whole line of the text that is not blank, and every such
      line is a bullet; so no bullet holds a line break or is blank. */
  lemma ParseBulletsSpec(text: string)
    ensures var bullets := ParseBullets(text);
      && WellFormedBullets(bullets)
      && (forall b :: b in bullets <==> b in Text.Split(text, '\n') && !Text.IsBlank(b))
  {
    var lines := Text.Split(text, '\n');
    NonBlankSpec(lines);
    Text.SplitPieces(text, '\n');
    var bullets := ParseBullets(text);
    forall i | 0 <= i < |bullets| ensures '\n' !in bullets[i] && !Text.IsBlank(bullets[i]) {
      assert bullets[i] in lines;
    }
  }

  /** Two texts joined at a line break parse into the bullets of the first followed by
      those of the second. */
  lemma ParseBulletsAppend(a: string, b: string)
    ensures ParseBullets(a + "\n" + b) == ParseBullets(a) + ParseBullets(b)
  {
    assert a + "\n" + b == a + ['\n'] + b;
    Text.SplitAround(a, '\n', b);
    NonBlankAppend(Text.Split(a, '\n'), Text.Split(b, '\n'));
  }

  /** Round trip: a well-formed list shown in the box parses back to itself. */
  lemma BulletsRoundTrip(bullets: seq<string>)
    requires WellFormedBullets(bullets)
    ensures ParseBullets(DisplayBullets(JStrs(bullets))) == bullets
  {
    if |bullets| == 0 {
      assert Text.Split("", '\n') == [""];
      assert Text.IsBlank("");
    } else {
      Text.SplitJoin(bullets, '\n');
      NonBlankKeepsAll(bullets);
    }
  }

  /** Parsing what the box shows after a parse changes nothing more. */
  lemma ParseBulletsIdempotent(text: string)
    ensures ParseBullets(DisplayBullets(JStrs(ParseBullets(text)))) == ParseBullets(text)
  {
    ParseBulletsSpec(text);
    BulletsRoundTrip(ParseBullets(text));
  }

  /** What the box shows right after the admin typed `typed`: the typed text is parsed
      into the programme and the box re-renders from the parsed list. */
  function ShownAfterTyping(typed: string): string {
    DisplayBullets(JStrs(ParseBullets(typed)))
  }

  /** The text of a well-formed list never ends with a line break. */
  lemma {:induction false} JoinedNoTrailingBreak(bullets: seq<string>)
    requires WellFormedBullets(bullets)
    ensures var t := Text.Join(bullets, '\n'); |t| == 0 || t[|t| - 1] != '\n'
    decreases |bullets|
  {
    if |bullets| == 1 {
      var b := bullets[0];
      assert Text.Join(bullets, '\n') == b;
      if |b| > 0 {
        assert b[|b| - 1] in b;
      }
    } else if |bullets| > 1 {
      JoinedNoTrailingBreak(bullets[1..]);
      var rest := Text.Join(bullets[1..], '\n');
      assert |rest| > 0 by {
        assert bullets[1..][0] == bullets[1];
        if |bullets[1..]| == 1 {
          assert rest == bullets[1];
        }
        assert !Text.IsBlank(bullets[1]);
        JoinNonEmpty(bullets[1..]);
      }
      var t := Text.Join(bullets, '\n');
      assert t == bullets[0] + ['\n'] + rest;
      assert t[|t| - 1] == rest[|rest| - 1];
    }
  }

  /** A non-empty list whose first bullet is not blank has a non-empty text. */
  lemma JoinNonEmpty(bullets: seq<string>)
    requires |bullets| > 0 && !Text.IsBlank(bullets[0])
    ensures |Text.Join(bullets, '\n')| > 0
  {
  }

  /** As written, a line break typed at the end of a bullet box is dropped at once: the
      box re-renders without it, so a new bullet cannot be started with Enter at the end
      of the text. */
  lemma TypedLineBreakDropped(typed: string)
    requires |typed| > 0 && typed[|typed| - 1] == '\n'
    ensures ShownAfterTyping(typed) != typed
  {
    ParseBulletsSpec(typed);
    JoinedNoTrailingBreak(ParseBullets(typed));
  }

  /** For instance, typing "a" and then Enter leaves the box showing "a". */
  lemma TypedLineBreakExample()
    ensures ShownAfterTyping("a\n") == "a"
  {
    ParseBulletsAppend("a", "");
    assert "a" + "\n" + "" == "a\n";
    Text.SplitNoSep("a", '\n');
    assert Text.Split("", '\n') == [""];
    assert NonBlank([""]) == [] by { assert Text.IsBlank(""); }
    assert NonBlank(["a"]) == ["a"] by { assert !Text.IsJsWhitespace('a'); assert !Text.IsBlank("a"); }
  }

  /** A bullet box that keeps the text as typed and stores the parsed list beside it, so
      the box shows what was typed while the programme holds its bullets. */
  class BulletsBox {
    var text: string
    var bullets: seq<string>

    /** The box opened on a stored list shows that list's text. */
    constructor (bullets: seq<string>)
      ensures text == Text.Join(bullets, '\n') && this.bullets == bullets
    {
      text := Text.Join(bullets, '\n');
      this.bullets := bullets;
    }

    /** The admin types `typed`. */
    method Type(typed: string)
      modifies this
      ensures text == typed && bullets == ParseBullets(typed)
    {
      text := typed;
      bullets := ParseBullets(typed);
    }
  }

  /** An empty box holds no bullet. */
  lemma ParseBulletsEmpty()
    ensures ParseBullets("") == []
  {
    assert Text.Split("", '\n') == [""];
    assert Text.IsBlank("");
  }

  /** A line break at the end of a typed text adds no bullet. */
  lemma TrailingBreakAddsNothing(a: string)
    ensures ParseBullets(a + "\n") == ParseBullets(a)
  {
    assert a + "\n" == a + "\n" + "";
    ParseBulletsAppend(a, "");
    ParseBulletsEmpty();
  }

  /** In the corrected box the text shown is always the text typed, a line break at the
      end included, the bullets are that text's parse, and a well-formed stored list is
      untouched by opening the box on it. */
  lemma BulletsBoxKeepsTyping(stored: seq<string>, typed: string)
    requires WellFormedBullets(stored)
    ensures ParseBullets(Text.Join(stored, '\n')) == stored
    ensures |typed| > 0 && typed[|typed| - 1] == '\n' ==>
              ParseBullets(typed) == ParseBullets(typed[..|typed| - 1])
  {
    BulletsRoundTrip(stored);
    if |typed| > 0 && typed[|typed| - 1] == '\n' {
      var a := typed[..|typed| - 1];
      assert typed == a + "\n";
      TrailingBreakAddsNothing(a);
    }
  }

  /* ---------- The programme being edited ---------- */

  /** The blank form of a new programme, when `count` programmes are listed. */
  function NewProgram(count: nat): JsObject {
    map["title_en" := JStr(""), "title_fr" := JStr(""), "description_en" := JStr(""),
        "description_fr" := JStr(""), "bullets_en" := JStrs([]), "bullets_fr" := JStrs([]),
        "media_key" := JStr(""), "order" := JNum(count + 1)]
  }

  /** The API calls a save makes. */
  datatype ProgramCall = Update(id: string, data: JsObject) | Create(data: JsObject)

  /** `saveProgram`'s call: an update of the programme's id when it has one, a create
      otherwise, with the programme as it is. */
  function SaveProgramCall(program: JsObject): ProgramCall {
    if Truthy(Get(program, "id")) then Update(ToJsString(Get(program, "id")), program)
    else Create(program)
  }

  /** A save updates exactly when the programme has an id, and sends the programme as it
      is; a new programme is created. */
  lemma SaveProgramDispatch(program: JsObject, count: nat)
    ensures SaveProgramCall(program).Update? <==> Truthy(Get(program, "id"))
    ensures SaveProgramCall(program).data == program
    ensures SaveProgramCall(program).Update? ==> SaveProgramCall(program).id == ToJsString(Get(program, "id"))
    ensures SaveProgramCall(NewProgram(count)) == Create(NewProgram(count))
  {
  }

  /** A new programme starts with empty texts, empty bullet lists whose boxes show
      nothing, no id and the next order number. */
  lemma NewProgramProps(count: nat)
    ensures var p := NewProgram(count);
      && (forall k :: k in p && k != "order" && k != "bullets_en" && k != "bullets_fr" ==> p[k] == JStr(""))
      && p["bullets_en"] == JStrs([]) && p["bullets_fr"] == JStrs([])
      && DisplayBullets(p["bullets_en"]) == "" && DisplayBullets(p["bullets_fr"]) == ""
      && p["order"] == JNum(count + 1) && "id" !in p
  {
  }

  /** The page's state. */
  class Page {
    var programs: seq<JsObject>
    var editDialog: bool
    var currentProgram: Option<JsObject>

    predicate Valid()
      reads this
    {
      editDialog ==> currentProgram.Some?
    }

    constructor ()
      ensures Valid() && programs == [] && !editDialog && currentProgram == None
    {
      programs := [];
      editDialog := false;
      currentProgram := None;
    }

    /** `openEditDialog(program)`: a copy of the programme, or the blank form of a new one. */
    method OpenEditDialog(program: Option<JsObject>)
      modifies this
      ensures Valid() && editDialog && programs == old(programs)
      ensures currentProgram == Some(if program.Some? then program.value else NewProgram(|programs|))
    {
      if program.Some? {
        currentProgram := program;
      } else {
        currentProgram := Some(NewProgram(|programs|));
      }
      editDialog := true;
    }

    /** `handleChange(field, value)`: exactly that field of the programme changes. */
    method HandleChange(field: string, value: JsValue)
      requires Valid()
      modifies this
      ensures Valid() && currentProgram.Some?
      ensures Get(currentProgram.value, field) == value
      ensures old(currentProgram).Some? ==> currentProgram.value == old(currentProgram).value[field := value]
      ensures old(currentProgram).None? ==> currentProgram.value == map[field := value]
      ensures forall k :: k != field ==> Get(currentProgram.value, k) == Get(old(currentProgram).GetOr(map[]), k)
      ensures programs == old(programs) && editDialog == old(editDialog)
    {
      var prev := if currentProgram.Some? then currentProgram.value else map[];
      currentProgram := Some(prev[field := value]);
    }

    /** `handleBulletsChange(field, text)`: that field becomes the text's bullets. */
    method HandleBulletsChange(field: string, text: string)
      requires Valid()
      modifies this
      ensures Valid() && currentProgram.Some?
      ensures Get(currentProgram.value, field) == JStrs(ParseBullets(text))
      ensures WellFormedBullets(Get(currentProgram.value, field).items)
      ensures forall k :: k != field ==> Get(currentProgram.value, k) == Get(old(currentProgram).GetOr(map[]), k)
      ensures programs == old(programs) && editDialog == old(editDialog)
    {
      ParseBulletsSpec(text);
      var bullets := NonBlank(Text.Split(text, '\n'));
      HandleChange(field, JStrs(bullets));
    }

    /** `saveProgram`, given whether its call succeeds: the dialog closes after a
        successful one (the list is then fetched again, which is not part of this
        model) and stays open after a failed one. */
    method SaveProgram(succeeded: bool) returns (call: ProgramCall)
      requires Valid() && currentProgram.Some?
      modifies this
      ensures Valid()
      ensures call == SaveProgramCall(old(currentProgram).value)
      ensures editDialog == (old(editDialog) && !succeeded)
      ensures currentProgram == old(currentProgram) && programs == old(programs)
    {
      var program := currentProgram.value;
      var id := Get(program, "id");
      if Truthy(id) {
        call := Update(ToJsString(id), program);
      } else {
        call := Create(program);
      }
      if succeeded {
        editDialog := false;
      }
    }
  }
}
