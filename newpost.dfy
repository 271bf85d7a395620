/** The new-post dialog (`src/components/NewPostScreen.tsx`): its initial
    fields, the image list built from the chosen files, and the submit
    handler's checks and callbacks. `parseFloat` and `String(number)` are
    parameters; the dialog's rendering is left out. */
module NewPostForm {
  import opened Wrappers
  import Text

  /** The form's fields. The coordinates are kept as the text typed in. */
  datatype Form = Form(title: string, text: string, genre: string, latitude: string, longitude: string,
                       images: seq<string>)

  /** The pin handed to `onCreate`. */
  datatype NewPin = NewPin(latitude: real, longitude: real, title: string, text: string, genre: string,
                           images: seq<string>)

  /** What the handler does, in order: a toast, or a callback. */
  datatype Event = ErrorToast(message: string) | SuccessToast(message: string) | OnCreate(pin: NewPin) | OnClose

  const DefaultLatitude: real := 33.6071
  const DefaultLongitude: real := 133.6822

  const MsgNoTitle := "タイトルを入力してください"
  const MsgLongTitle := "タイトルは50文字以内で入力してください"
  const MsgNoText := "説明を入力してください"
  const MsgBadPosition := "有効な位置情報を入力してください"
  const MsgPosted := "投稿しました！"
  const MsgFailed := "投稿に失敗しました"

  /** The state the dialog opens with: empty fields, genre "other", no
      images, and the given coordinates or else a point in Kochi. */
  function InitialForm(initialLatitude: Option<real>, initialLongitude: Option<real>, show: real -> string): (r: Form)
    ensures r.title == "" && r.text == "" && r.genre == "other" && r.images == []
    ensures r.latitude == show(if initialLatitude.Some? then initialLatitude.value else DefaultLatitude)
    ensures r.longitude == show(if initialLongitude.Some? then initialLongitude.value else DefaultLongitude)
  {
    Form("", "", "other", show(initialLatitude.GetOr(DefaultLatitude)), show(initialLongitude.GetOr(DefaultLongitude)), [])
  }

  // ---------------------------------------------------------------------------
  // Submitting

  /** The checks of `handleSubmit`, in order: a title that trims to nothing,
      a title over 50 UTF-16 code units, a text that trims to nothing, a
      coordinate `parseFloat` turns into NaN (`None`). The first failing
      check gives its message; otherwise the pin to create. */
  function Validate(f: Form, parseFloat: string -> Option<real>): (r: Result<NewPin, string>)
    ensures Text.JsTrim(f.title) == "" ==> r == Err(MsgNoTitle)
    ensures Text.JsTrim(f.title) != "" && Text.Utf16Len(f.title) > 50 ==> r == Err(MsgLongTitle)
    ensures Text.JsTrim(f.title) != "" && Text.Utf16Len(f.title) <= 50 && Text.JsTrim(f.text) == "" ==> r == Err(MsgNoText)
    ensures r.Ok? <==> Text.JsTrim(f.title) != "" && Text.Utf16Len(f.title) <= 50 && Text.JsTrim(f.text) != ""
                       && parseFloat(f.latitude).Some? && parseFloat(f.longitude).Some?
    ensures (Text.JsTrim(f.title) != "" && Text.Utf16Len(f.title) <= 50 && Text.JsTrim(f.text) != ""
      && (parseFloat(f.latitude).None? || parseFloat(f.longitude).None?)) ==> r == Err(MsgBadPosition)
    ensures r.Err? ==> r.error in {MsgNoTitle, MsgLongTitle, MsgNoText, MsgBadPosition}
    ensures r.Ok? ==> r.value == NewPin(parseFloat(f.latitude).value, parseFloat(f.longitude).value, f.title, f.text,
                                        f.genre, f.images)
  {
    if Text.JsTrim(f.title) == "" then Err(MsgNoTitle)
    else if Text.Utf16Len(f.title) > 50 then Err(MsgLongTitle)
    else if Text.JsTrim(f.text) == "" then Err(MsgNoText)
    else match (parseFloat(f.latitude), parseFloat(f.longitude))
      case (Some(lat), Some(lng)) => Ok(NewPin(lat, lng, f.title, f.text, f.genre, f.images))
      case _ => Err(MsgBadPosition)
  }

  /** `handleSubmit`: a failed check shows its message and does nothing
      else; otherwise `onCreate` runs, and when it does not throw a success
      toast follows and the dialog is closed; when it throws, an error toast
      follows and the dialog stays open. */
  function HandleSubmit(f: Form, parseFloat: string -> Option<real>, createThrows: bool): (r: seq<Event>)
    ensures Validate(f, parseFloat).Err? ==> r == [ErrorToast(Validate(f, parseFloat).error)]
    ensures Validate(f, parseFloat).Ok? && !createThrows ==>
      r == [OnCreate(Validate(f, parseFloat).value), SuccessToast(MsgPosted), OnClose]
    ensures Validate(f, parseFloat).Ok? && createThrows ==>
      r == [OnCreate(Validate(f, parseFloat).value), ErrorToast(MsgFailed)]
  {
    match Validate(f, parseFloat)
    case Err(message) => [ErrorToast(message)]
    case Ok(pin) => if createThrows then [OnCreate(pin), ErrorToast(MsgFailed)] else [OnCreate(pin), SuccessToast(MsgPosted), OnClose]
  }

  predicate Creates(events: seq<Event>) { exists k :: 0 <= k < |events| && events[k].OnCreate? }

  /** At most one `onCreate` call. */
  predicate CreatesOnce(events: seq<Event>) {
    forall i, j :: 0 <= i < |events| && 0 <= j < |events| && events[i].OnCreate? && events[j].OnCreate? ==> i == j
  }

  /** Every close comes after an `onCreate` call. */
  predicate ClosesAfterCreate(events: seq<Event>) {
    forall j :: 0 <= j < |events| && events[j] == OnClose ==> exists i :: 0 <= i < j && events[i].OnCreate?
  }

  /** `onCreate` is called, at most once, exactly when every check passes,
      and the dialog is closed only after it and only when it did not throw. */
  lemma CreateOnlyWhenValid(f: Form, parseFloat: string -> Option<real>, createThrows: bool)
    ensures var r := HandleSubmit(f, parseFloat, createThrows);
      (Creates(r) <==> Validate(f, parseFloat).Ok?)
      && (OnClose in r <==> Validate(f, parseFloat).Ok? && !createThrows)
      && CreatesOnce(r) && ClosesAfterCreate(r)
  {
    var v := Validate(f, parseFloat);
    if v.Err? {
      OneToast(v.error);
    } else {
      CreateShapes(v.value);
    }
  }

  /** The event list of a failed check. */
  lemma OneToast(message: string)
    ensures var r := [ErrorToast(message)];
      !Creates(r) && OnClose !in r && CreatesOnce(r) && ClosesAfterCreate(r)
  {
  }

  /** The event lists after `onCreate`, with and without a throw. */
  lemma CreateShapes(pin: NewPin)
    ensures var r := [OnCreate(pin), ErrorToast(MsgFailed)];
      Creates(r) && OnClose !in r && CreatesOnce(r) && ClosesAfterCreate(r)
    ensures var r := [OnCreate(pin), SuccessToast(MsgPosted), OnClose];
      Creates(r) && OnClose in r && CreatesOnce(r) && ClosesAfterCreate(r)
  {
    var r := [OnCreate(pin), ErrorToast(MsgFailed)];
    assert r[0].OnCreate?;
    var r' := [OnCreate(pin), SuccessToast(MsgPosted), OnClose];
    assert r'[0].OnCreate? && r'[2] == OnClose;
  }

  /** A blank title is reported first whatever else is wrong: the checks
      stop at the first failure. */
  lemma BlankTitleFirst(f: Form, parseFloat: string -> Option<real>, createThrows: bool)
    requires Text.JsTrim(f.title) == ""
    ensures HandleSubmit(f, parseFloat, createThrows) == [ErrorToast(MsgNoTitle)]
  {
  }

  /** The length is counted in UTF-16 code units: a title of 26 characters
      outside the Basic Multilingual Plane (emoji, say) is already too long. */
  lemma TitleMeasuredInUtf16(f: Form, parseFloat: string -> Option<real>)
    requires |f.title| == 26 && forall k :: 0 <= k < 26 ==> f.title[k] as int >= 0x1_0000
    requires Text.JsTrim(f.title) != ""
    ensures Validate(f, parseFloat) == Err(MsgLongTitle)
  {
    Utf16Wide(f.title);
  }

  lemma {:induction false} Utf16Wide(s: string)
    requires forall k :: 0 <= k < |s| ==> s[k] as int >= 0x1_0000
    ensures Text.Utf16Len(s) == 2 * |s|
  {
    if s != [] {
      Utf16Wide(s[1..]);
    }
  }

  // ---------------------------------------------------------------------------
  // Images

  /** The outcome of reading one chosen file as a data URL. */
  datatype FileRead = Loaded(dataUrl: string) | ReadFailed

  /** The data URLs of the files that could be read, in the order chosen. */
  function Successes(files: seq<FileRead>): (r: seq<string>)
    ensures |r| <= |files|
    ensures forall u :: u in r <==> Loaded(u) in files
  {
    if files == [] then []
    else
      var init := files[..|files| - 1];
      var last := files[|files| - 1];
      assert files == init + [last];
      Successes(init) + (if last.Loaded? then [last.dataUrl] else [])
  }

  /** `handleFileChange`: with no file list nothing changes; otherwise each
      file is read in turn, the ones that fail are skipped, and the rest are
      appended after the images already chosen. */
  method HandleFileChange(images: seq<string>, files: Option<seq<FileRead>>) returns (r: seq<string>)
    ensures files.None? ==> r == images
    ensures files.Some? ==> r == images + Successes(files.value)
  {
    if files.None? {
      return images;
    }
    var list := files.value;
    var newImages: seq<string> := [];
    var i := 0;
    while i < |list|
      invariant 0 <= i <= |list|
      invariant newImages == Successes(list[..i])
    {
      assert list[..i + 1][..i] == list[..i];
      if list[i].Loaded? {
        newImages := newImages + [list[i].dataUrl];
      }
      i := i + 1;
    }
    assert list[..i] == list;
    r := images + newImages;
  }

  /** `handleRemoveImage(index)`: every image but the one at `index`, in
      order, as `images.filter((_, i) => i !== index)`. */
  function RemoveImage(images: seq<string>, index: int): (r: seq<string>)
    ensures 0 <= index < |images| ==> r == images[..index] + images[index + 1..]
    ensures !(0 <= index < |images|) ==> r == images
  {
    RemoveFrom(images, index, 0)
  }

  /** The filter over positions, from position `from` on. */
  function RemoveFrom(images: seq<string>, index: int, from: nat): (r: seq<string>)
    requires from <= |images|
    ensures from <= index < |images| ==> r == images[from..index] + images[index + 1..]
    ensures !(from <= index < |images|) ==> r == images[from..]
    decreases |images| - from
  {
    if from == |images| then []
    else if from == index then RemoveFrom(images, index, from + 1)
    else [images[from]] + RemoveFrom(images, index, from + 1)
  }

  /** Removing the image that was just added gives back the list before. */
  lemma RemoveLastAdded(images: seq<string>, url: string)
    ensures RemoveImage(images + [url], |images|) == images
  {
    assert (images + [url])[..|images|] == images;
  }
}
