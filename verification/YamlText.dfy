/** The edits of YamlEdit on the text of a file. */
module YamlText {
  import opened Basics
  import opened Lines
  import opened Text
  import opened YamlEdit

  /** The text after an edit; None for its errors. */
  function PatchText(text: string, name: string, e: Edit): Option<string> {
    match Patch(SplitLines(text), name, e)
    case None => None
    case Some(lines) => Some(Join(lines, '\n') + "\n")
  }

  /** `_patch_tools_yaml` and `_patch_task_selection` behind their validation. */
  method PatchFileText(text: string, name: string, e: Edit) returns (r: Option<string>)
    ensures r == PatchText(text, name, e)
  {
    hide Patch, SplitLines;
    var lines := PatchFile(SplitLines(text), name, e);
    if lines.None? { return None; }
    r := Some(Join(lines.value, '\n') + "\n");
  }

  /** Nothing in the edit breaks a line. */
  predicate OneLiners(e: Edit) {
    match e
    case ToolEdit(_, overrides) => forall i :: 0 <= i < |overrides| ==> Unbroken(overrides[i].1)
    case TaskEdit(keys, _) => forall i :: 0 <= i < |keys| ==> Unbroken(keys[i])
  }

  ghost predicate AllUnbroken(lines: seq<string>) {
    forall i :: 0 <= i < |lines| ==> Unbroken(lines[i])
  }

  lemma Concat(a: string, b: string)
    requires Unbroken(a) && Unbroken(b)
    ensures Unbroken(a + b)
  {
  }

  lemma LinesUnbroken(key: string, value: string, on: bool)
    requires Unbroken(value)
    ensures Unbroken(EnabledLine(on)) && Unbroken(OVERRIDES) && Unbroken(SELECTION) && Unbroken(ItemLine(value))
    ensures KeyName(key) ==> Unbroken(EntryLine(key, value))
  {
    Concat("- ", value);
    Concat(Pad(6), "- " + value);
    if KeyName(key) {
      Concat(key, ":");
      Concat(Pad(6), key + ":");
      Concat(Pad(6) + (key + ":"), " ");
      Concat(Pad(6) + (key + ":") + " ", value);
    }
    hide Unbroken;
    Fixed(on);
  }

  lemma Fixed(on: bool)
    ensures Unbroken(EnabledLine(on)) && Unbroken(OVERRIDES) && Unbroken(SELECTION)
  {
    var tail := if on then " true" else " false";
    Concat(Pad(4), "enabled:");
    Concat(ENABLED, tail);
  }

  lemma UpsertUnbroken(block: seq<string>, key: string, value: string)
    requires AllUnbroken(block) && KeyName(key) && Unbroken(value)
    ensures AllUnbroken(Upsert(block, key, value))
  {
    LinesUnbroken(key, value, true);
    hide Unbroken, EntryLine, Hits, KeyName, Pad;
  }

  lemma {:induction false} UpsertAllUnbroken(block: seq<string>, overrides: seq<(string, string)>)
    requires AllUnbroken(block)
    requires forall i :: 0 <= i < |overrides| ==> KeyName(overrides[i].0) && Unbroken(overrides[i].1)
    ensures AllUnbroken(UpsertAll(block, overrides))
  {
    hide AllUnbroken, Upsert, KeyName, Unbroken;
    if overrides != [] {
      var n := |overrides| - 1;
      UpsertAllUnbroken(block, overrides[..n]);
      UpsertUnbroken(UpsertAll(block, overrides[..n]), overrides[n].0, overrides[n].1);
    }
  }

  lemma SelectUnbroken(block: seq<string>, keys: seq<string>)
    requires block != [] && AllUnbroken(block) && forall i :: 0 <= i < |keys| ==> Unbroken(keys[i])
    ensures AllUnbroken(Select(block, keys))
  {
    var own, i, j := SelectParts(block, keys);
    Fixed(true);
    forall k | 0 <= k < |keys| ensures Unbroken(ItemLines(keys)[k]) { LinesUnbroken("", keys[k], true); }
    hide Unbroken, ItemLines, Select, Pad;
  }

  lemma EditUnbroken(block: seq<string>, e: Edit)
    requires block != [] && AllUnbroken(block) && Admitted(e) && OneLiners(e)
    ensures EditBlock(block, e).Some? ==> AllUnbroken(EditBlock(block, e).value)
  {
    hide Unbroken, Upsert, UpsertAll, Select, KeyName, Hits, EnabledLine, Pad;
    match e {
      case TaskEdit(keys, _) => SelectUnbroken(block, keys);
      case ToolEdit(enabled, overrides) =>
        if enabled.Some? { Fixed(enabled.value); }
        var switched := if enabled.Some? then SetEnabled(block, enabled.value) else Some(block);
        if switched.Some? { UpsertAllUnbroken(switched.value, overrides); }
    }
  }

  lemma PatchUnbroken(lines: seq<string>, name: string, e: Edit)
    requires AllUnbroken(lines) && OneLiners(e) && Named(name)
    ensures Patch(lines, name, e).Some? ==> AllUnbroken(Patch(lines, name, e).value) && Patch(lines, name, e).value != []
  {
    hide Unbroken, EditBlock, Hits, OneLiners, Admitted, Named, BlockAt, Patch;
    if Patch(lines, name, e).Some? {
      var s, t, x := PatchSplices(lines, name, e);
      BlockRange(lines, name, s, t);
      EditUnbroken(lines[s..t], e);
    }
  }

  /** The text of an edited file reads as the edited lines. */
  lemma PatchReads(text: string, name: string, e: Edit)
    requires OneLiners(e) && Named(name) && PatchText(text, name, e).Some?
    ensures Patch(SplitLines(text), name, e) == Some(SplitLines(PatchText(text, name, e).value))
  {
    hide Patch, SplitLines, Unbroken, OneLiners, Named, Join, Unlines;
    PatchUnbroken(SplitLines(text), name, e);
    var lines := Patch(SplitLines(text), name, e).value;
    JoinUnlines(lines);
    SplitUnlines(lines);
  }

  /** Edits of different tools, or of different tasks, commute to the identical text. */
  lemma TextEditsCommute(text: string, a: string, e: Edit, b: string, f: Edit)
    requires a != b && Named(a) && Named(b) && OneLiners(e) && OneLiners(f)
    requires PatchText(text, a, e).Some? && PatchText(text, b, f).Some?
    ensures PatchText(PatchText(text, a, e).value, b, f).Some?
    ensures PatchText(PatchText(text, a, e).value, b, f) == PatchText(PatchText(text, b, f).value, a, e)
  {
    hide Patch, SplitLines, OneLiners, Named, Join;
    PatchReads(text, a, e);
    PatchReads(text, b, f);
    EditsCommute(SplitLines(text), a, e, b, f);
  }
}
