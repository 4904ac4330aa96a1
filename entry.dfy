/** One day's record and the edits the detail panel makes to it: the mood toggle,
    the manual colour list, the swatch preview and generation, and the photo upload
    with its size limit.  Every edit builds a new record from the previous one. */
module Entry {
  import opened Common
  import opened Swatch

  /** A record of the React book; swatch stands for the generated swatchSVG string. */
  datatype Entry = Entry(
    notes: string,
    photo: Option<string>,
    moods: seq<string>,
    palette: Option<seq<string>>,
    manualColors: seq<string>,
    matType: string,
    strength: real,
    swatch: Option<Swatch>)

  /** emptyEntry() of the React book. */
  function EmptyEntry(): (e: Entry)
    ensures e.notes == "" && e.photo == None && e.moods == [] && e.palette == None
    ensures e.manualColors == [] && e.matType == "auto" && e.strength == 60.0 && e.swatch == None
  {
    Entry("", None, [], None, [], "auto", 60.0, None)
  }

  /** A record of the earlier book revision. */
  datatype SimpleEntry = SimpleEntry(notes: string, photo: Option<string>, moods: seq<string>)

  /** emptyEntry() of the earlier revision. */
  function EmptySimpleEntry(): (e: SimpleEntry)
    ensures e.notes == "" && e.photo == None && e.moods == []
  {
    SimpleEntry("", None, [])
  }

  /** moods.filter(x => x !== m) */
  function RemoveAll(moods: seq<string>, m: string): (r: seq<string>)
    ensures |r| <= |moods|
    ensures forall x :: x in r <==> x in moods && x != m
    ensures m in moods ==> |r| < |moods|
    ensures m !in moods ==> r == moods
    ensures multiset(r) == multiset(moods)[m := 0]
  {
    if moods == [] then []
    else
      assert moods == [moods[0]] + moods[1..];
      if moods[0] == m then RemoveAll(moods[1..], m)
      else [moods[0]] + RemoveAll(moods[1..], m)
  }

  /** toggleMood(m) (both revisions): removes m when present, appends it otherwise. */
  function ToggleMood(moods: seq<string>, m: string): (r: seq<string>)
    ensures m in moods ==> m !in r && forall x :: x != m ==> (x in r <==> x in moods)
    ensures m in moods ==> multiset(r) == multiset(moods)[m := 0]
    ensures m !in moods ==> r == moods + [m]
  {
    if m in moods then RemoveAll(moods, m) else moods + [m]
  }

  /** The filter works element by element: it keeps a mood other than m, drops m, and
      distributes over concatenation, so the kept moods stay in their order. */
  lemma {:induction false} RemoveAllFilters(a: seq<string>, b: seq<string>, x: string, m: string)
    ensures RemoveAll([x], m) == if x == m then [] else [x]
    ensures RemoveAll(a + b, m) == RemoveAll(a, m) + RemoveAll(b, m)
    decreases |a|
  {
    assert [x][1..] == [];
    if a == [] {
      assert a + b == b;
    } else {
      assert (a + b)[0] == a[0] && (a + b)[1..] == a[1..] + b;
      RemoveAllFilters(a[1..], b, x, m);
    }
  }

  /** Switching a present mood off keeps every other mood of both parts, in order. */
  lemma ToggleOffKeepsOrder(a: seq<string>, b: seq<string>, m: string)
    requires m in a + b
    ensures ToggleMood(a + b, m) == RemoveAll(a, m) + RemoveAll(b, m)
  {
    RemoveAllFilters(a, b, m, m);
  }

  lemma NoDupTail(s: seq<string>)
    requires s != [] && NoDup(s)
    ensures NoDup(s[1..]) && s[0] !in s[1..]
  {
    forall i, j | 0 <= i < j < |s[1..]| ensures s[1..][i] != s[1..][j] {
      assert s[1..][i] == s[i + 1] && s[1..][j] == s[j + 1];
    }
  }

  lemma NoDupCons(x: string, rest: seq<string>)
    requires NoDup(rest) && x !in rest
    ensures NoDup([x] + rest)
  {
    var r := [x] + rest;
    forall i, j | 0 <= i < j < |r| ensures r[i] != r[j] {
      if i == 0 { assert r[j] == rest[j - 1]; assert rest[j - 1] in rest; }
      else { assert r[i] == rest[i - 1] && r[j] == rest[j - 1]; }
    }
  }

  lemma {:induction false} RemoveAllNoDup(moods: seq<string>, m: string)
    requires NoDup(moods)
    ensures NoDup(RemoveAll(moods, m))
  {
    if moods != [] {
      NoDupTail(moods);
      RemoveAllNoDup(moods[1..], m);
      var rest := RemoveAll(moods[1..], m);
      if moods[0] != m {
        assert moods[0] !in rest;
        NoDupCons(moods[0], rest);
      }
    }
  }

  /** The mood list never gains a duplicate. */
  lemma ToggleMoodNoDup(moods: seq<string>, m: string)
    requires NoDup(moods)
    ensures NoDup(ToggleMood(moods, m))
  {
    if m in moods {
      RemoveAllNoDup(moods, m);
    } else {
      var r := moods + [m];
      forall i, j | 0 <= i < j < |r| ensures r[i] != r[j] {
        if j == |moods| { assert r[i] == moods[i]; assert moods[i] in moods; }
      }
    }
  }

  /** Toggling a mood on and off again restores the list exactly. */
  lemma ToggleTwiceAbsent(moods: seq<string>, m: string)
    requires m !in moods
    ensures ToggleMood(ToggleMood(moods, m), m) == moods
  {
    var once := moods + [m];
    assert m in once;
    RemoveAllAppend(moods, m);
  }

  lemma {:induction false} RemoveAllAppend(moods: seq<string>, m: string)
    requires m !in moods
    ensures RemoveAll(moods + [m], m) == moods
  {
    if moods == [] {
      assert [m][1..] == [];
    } else {
      assert (moods + [m])[1..] == moods[1..] + [m];
      RemoveAllAppend(moods[1..], m);
    }
  }

  /** Toggling a present mood off and on again keeps the same moods on a duplicate-free list;
      the mood moves to the end. */
  lemma ToggleTwicePresent(moods: seq<string>, m: string)
    requires NoDup(moods) && m in moods
    ensures ToggleMood(ToggleMood(moods, m), m) == RemoveAll(moods, m) + [m]
    ensures multiset(ToggleMood(ToggleMood(moods, m), m)) == multiset(moods)
  {
    RemoveAllMultiset(moods, m);
  }

  lemma {:induction false} RemoveAllMultiset(moods: seq<string>, m: string)
    requires NoDup(moods) && m in moods
    ensures multiset(RemoveAll(moods, m)) + multiset{m} == multiset(moods)
  {
    assert moods == [moods[0]] + moods[1..];
    assert NoDup(moods[1..]) by {
      forall i, j | 0 <= i < j < |moods[1..]| ensures moods[1..][i] != moods[1..][j] {
        assert moods[1..][i] == moods[i + 1] && moods[1..][j] == moods[j + 1];
      }
    }
    if moods[0] == m {
      assert m !in moods[1..];
      assert RemoveAll(moods[1..], m) == moods[1..];
    } else {
      RemoveAllMultiset(moods[1..], m);
    }
  }

  /** The order of moods is not restored: ["a", "b"] with "a" toggled twice is ["b", "a"]. */
  lemma ToggleTwiceReorders()
    ensures ToggleMood(ToggleMood(["a", "b"], "a"), "a") == ["b", "a"]
  {
    assert "a" in ["a", "b"];
    assert RemoveAll(["a", "b"], "a") == ["b"] by {
      assert ["a", "b"][1..] == ["b"];
      assert ["b"][1..] == [];
    }
    assert "a" !in ["b"];
  }

  /** emojiOnly(label): the text before the first space, "" for an empty label. */
  function EmojiOnly(s: string): (r: string)
    ensures |r| <= |s| && r == s[..|r|]
    ensures ' ' !in r
    ensures |r| < |s| ==> s[|r|] == ' '
  {
    if s == [] || s[0] == ' ' then [] else [s[0]] + EmojiOnly(s[1..])
  }

  /** The colour list at most has this many entries. */
  const MaxManualColors: nat := 6

  /** (prev.matType || "auto"): an empty material name reads as "auto". */
  function MatTypeOrAuto(t: string): string
  {
    if t == "" then "auto" else t
  }

  /** addManualColor: no change at six colours; otherwise "#cccccc" is appended, and the swatch is
      redrawn from the manual colours unless the material is "auto". */
  function AddManualColor(e: Entry, strength: real): (r: Entry)
    ensures |e.manualColors| >= MaxManualColors ==> r == e
    ensures |e.manualColors| < MaxManualColors ==>
      && r.manualColors == e.manualColors + ["#cccccc"]
      && r.swatch == (if MatTypeOrAuto(e.matType) != "auto"
                      then Some(MakeSwatch(e.matType, r.manualColors, strength)) else e.swatch)
      && r.(manualColors := e.manualColors, swatch := e.swatch) == e
  {
    if |e.manualColors| >= MaxManualColors then e
    else
      var arr := e.manualColors + ["#cccccc"];
      if MatTypeOrAuto(e.matType) != "auto" then e.(manualColors := arr, swatch := Some(MakeSwatch(e.matType, arr, strength)))
      else e.(manualColors := arr)
  }

  /** The list of manual colours never exceeds six through addManualColor. */
  lemma AddKeepsBound(e: Entry, strength: real)
    requires |e.manualColors| <= MaxManualColors
    ensures |AddManualColor(e, strength).manualColors| <= MaxManualColors
  {
  }

  /** The material used to redraw after an edit of the colour list: "auto" previews as plain. */
  function EditType(t: string): (r: string)
    ensures r != "auto"
  {
    if t == "auto" then "plain" else t
  }

  /** The swatch after an edit of the colour list: redrawn when there is a colour to draw with. */
  function Redraw(t: string, colors: seq<string>, strength: real, otherwise: Option<Swatch>): (s: Option<Swatch>)
    ensures |colors| > 0 ==> s == Some(MakeSwatch(EditType(t), colors, strength))
    ensures |colors| == 0 ==> s == otherwise
  {
    var ty := EditType(t);
    if ty != "auto" && |colors| > 0 then Some(MakeSwatch(ty, colors, strength)) else otherwise
  }

  /** changeManualColor(idx, val) for a colour picker that is on screen (idx < length). */
  function ChangeManualColor(e: Entry, idx: nat, val: string, strength: real): (r: Entry)
    requires idx < |e.manualColors|
    ensures |r.manualColors| == |e.manualColors| && r.manualColors[idx] == val
    ensures forall i :: 0 <= i < |e.manualColors| && i != idx ==> r.manualColors[i] == e.manualColors[i]
    ensures r.swatch == Some(MakeSwatch(EditType(e.matType), r.manualColors, strength))
    ensures r.(manualColors := e.manualColors, swatch := e.swatch) == e
  {
    var arr := e.manualColors[idx := val];
    // arr is never empty here, so the palette fallback of the source is not reached
    e.(manualColors := arr, swatch := Redraw(e.matType, arr, strength, e.swatch))
  }

  /** Array.prototype.splice's start index: negative counts from the end, clamped to the list. */
  function SpliceStart(len: nat, idx: int): (st: nat)
    ensures st <= len
    ensures 0 <= idx <= len ==> st == idx
    ensures idx > len ==> st == len
  {
    if idx < 0 then (if len + idx < 0 then 0 else len + idx) else if idx > len then len else idx
  }

  /** arr.splice(idx, 1) on a copy. */
  function RemoveAt(arr: seq<string>, idx: int): (r: seq<string>)
    ensures 0 <= idx < |arr| ==> r == arr[..idx] + arr[idx + 1..]
    ensures idx >= |arr| ==> r == arr
    ensures |r| == if SpliceStart(|arr|, idx) < |arr| then |arr| - 1 else |arr|
  {
    var st := SpliceStart(|arr|, idx);
    if st < |arr| then arr[..st] + arr[st + 1..] else arr
  }

  /** removeManualColor(idx): the colour at idx goes; the swatch is redrawn from what is left, or
      from the palette when no manual colour is left. */
  function RemoveManualColor(e: Entry, idx: int, strength: real): (r: Entry)
    ensures r.manualColors == RemoveAt(e.manualColors, idx)
    ensures var colors := if |r.manualColors| > 0 then r.manualColors
                          else (if e.palette.Some? then e.palette.value else []);
            r.swatch == Redraw(e.matType, colors, strength, e.swatch)
    ensures r.(manualColors := e.manualColors, swatch := e.swatch) == e
  {
    var arr := RemoveAt(e.manualColors, idx);
    var colors := if |arr| > 0 then arr else (if e.palette.Some? then e.palette.value else []);
    e.(manualColors := arr, swatch := Redraw(e.matType, colors, strength, e.swatch))
  }

  /** Removing the only colour of a list falls back to the palette. */
  lemma RemoveLastFallsBack(e: Entry, strength: real)
    requires |e.manualColors| == 1 && e.palette.Some? && |e.palette.value| > 0
    ensures RemoveManualColor(e, 0, strength).swatch == Some(MakeSwatch(EditType(e.matType), e.palette.value, strength))
  {
  }

  /** clearManualColors: the list is emptied and the swatch is redrawn from the palette, or
      dropped when there is no palette colour. */
  function ClearManualColors(e: Entry, strength: real): (r: Entry)
    ensures r.manualColors == []
    ensures var colors := if e.palette.Some? then e.palette.value else [];
            r.swatch == (if |colors| > 0 then Some(MakeSwatch(EditType(e.matType), colors, strength)) else None)
    ensures r.(manualColors := e.manualColors, swatch := e.swatch) == e
  {
    var colors := if e.palette.Some? then e.palette.value else [];
    e.(manualColors := [], swatch := Redraw(e.matType, colors, strength, None))
  }

  /** The colours a swatch is drawn with: the manual colours when there are any, else the palette. */
  function EffectiveColors(e: Entry): (c: Option<seq<string>>)
    ensures |e.manualColors| > 0 ==> c == Some(e.manualColors)
    ensures |e.manualColors| == 0 ==> c == e.palette
  {
    if |e.manualColors| > 0 then Some(e.manualColors) else e.palette
  }

  /** The preview effect on a change of material or strength: redrawn when there are colours and
      the material is not "auto". */
  function PreviewSwatch(e: Entry, matType: string, strength: real): (r: Entry)
    ensures EffectiveColors(e).Some? && matType != "auto" ==>
              r == e.(swatch := Some(MakeSwatch(matType, EffectiveColors(e).value, strength)))
    ensures !(EffectiveColors(e).Some? && matType != "auto") ==> r == e
  {
    var colors := EffectiveColors(e);
    if colors.Some? && matType != "auto" then e.(swatch := Some(MakeSwatch(matType, colors.value, strength))) else e
  }

  /** The colours generateSwatch falls back to without manual colours or palette. */
  const DefaultSwatchColors: seq<string> := ["#d0d0d0", "#a0a0a0", "#808080", "#e5e5e5"]

  /** generateSwatch: the new record and the panel's material.  With "auto" the material is the one
      the classifier guessed from the photo (guessed), and nothing happens without a photo. */
  function GenerateSwatch(e: Entry, matType: string, strength: real, guessed: string): (r: (Entry, string))
    ensures var colors := if EffectiveColors(e).Some? then EffectiveColors(e).value else DefaultSwatchColors;
      && (matType != "auto" ==> r == (e.(swatch := Some(MakeSwatch(matType, colors, strength))), matType))
      && (matType == "auto" && e.photo.None? ==> r == (e, matType))
      && (matType == "auto" && e.photo.Some? ==>
            r == (e.(matType := guessed, swatch := Some(MakeSwatch(guessed, colors, strength))), guessed))
  {
    var colors := if EffectiveColors(e).Some? then EffectiveColors(e).value else DefaultSwatchColors;
    if matType == "auto" then
      if e.photo.None? then (e, matType)
      else (e.(matType := guessed, swatch := Some(MakeSwatch(guessed, colors, strength))), guessed)
    else (e.(swatch := Some(MakeSwatch(matType, colors, strength))), matType)
  }

  /** dataUrl.split(",")[1] || "": the text between the first and the second comma. */
  function Payload(url: string): (p: string)
  {
    if url == [] then "" else if url[0] == ',' then UpToComma(url[1..]) else Payload(url[1..])
  }

  function UpToComma(s: string): (r: string)
    ensures |r| <= |s| && r == s[..|r|] && ',' !in r
    ensures |r| < |s| ==> s[|r|] == ','
  {
    if s == [] || s[0] == ',' then [] else [s[0]] + UpToComma(s[1..])
  }

  /** For "header,base64" with no other comma, the payload is the base64 text. */
  lemma {:induction false} PayloadOfDataUrl(header: string, b64: string)
    requires ',' !in header && ',' !in b64
    ensures Payload(header + "," + b64) == b64
  {
    if header == [] {
      assert ([] + "," + b64)[1..] == b64;
      UpToCommaAll(b64);
    } else {
      assert (header + "," + b64)[1..] == header[1..] + "," + b64;
      PayloadOfDataUrl(header[1..], b64);
    }
  }

  lemma {:induction false} UpToCommaAll(s: string)
    requires ',' !in s
    ensures UpToComma(s) == s
  {
    if s != [] {
      assert s[0] in s;
      assert ',' !in s[1..] by { forall i | 0 <= i < |s[1..]| ensures s[1..][i] != ',' { assert s[1..][i] == s[i + 1]; } }
      UpToCommaAll(s[1..]);
    }
  }

  /** dataUrlBytes: Math.floor(payload length * 0.75), the decoded size of base64 text. */
  function DataUrlBytes(url: string): (n: nat)
    ensures n * 4 <= 3 * |Payload(url)| < n * 4 + 4
  {
    (3 * |Payload(url)|) / 4
  }

  /** The upload limit, 10 MiB. */
  const MaxPhotoBytes: nat := 10 * 1024 * 1024

  predicate TooLarge(url: string)
  {
    DataUrlBytes(url) > MaxPhotoBytes
  }

  /** An upload is refused exactly when its base64 payload has at least 13981015 characters. */
  lemma TooLargeThreshold(url: string)
    ensures TooLarge(url) <==> |Payload(url)| >= 13981015
  {
  }

  /** The photo input: a refused upload leaves the record alone; otherwise the photo and the
      palette extracted from it are stored. */
  function UploadPhoto(e: Entry, jpeg: string, palette: seq<string>): (r: Option<Entry>)
    ensures TooLarge(jpeg) <==> r.None?
    ensures r.Some? ==> r.value == e.(photo := Some(jpeg), palette := Some(palette))
  {
    if TooLarge(jpeg) then None else Some(e.(photo := Some(jpeg), palette := Some(palette)))
  }
}
