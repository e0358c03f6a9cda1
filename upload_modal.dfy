/**
 * The photo upload dialog (`components/settings/UploadModal.tsx`): the list of picked files, at
 * most five, each checked for type and size before a batch is added; removing one file; the
 * full-screen preview whose arrows wrap around; and the checks made before the form is posted to
 * `/api/upload`. The server's answer is a parameter.
 */
module UploadModal {
  import opened Wrappers
  import opened Text
  import opened Files
  import UploadRoute

  const MAX_FILES: nat := 5
  const VALID_TYPES: seq<string> := IMAGE_TYPES
  /** 50MB, although the dialog's texts say 10MB. */
  const MAX_SIZE: nat := 50 * MB

  const CUSTOM: string := "custom"
  /** The values the category select offers. */
  const CATEGORIES: seq<string> := ["wedding", "portraits", "birthdays", "fun-shoot", CUSTOM]

  predicate Allowed(f: FileInfo) {
    f.mime in VALID_TYPES && f.size <= MAX_SIZE
  }

  /** Why a batch was turned down: the first offending file's type, or else its size. */
  datatype Rejection = InvalidType | TooLarge

  /**
   * The validation loop of `handleFileChange`: it stops at the first file whose type, checked
   * first, or size is not allowed.
   */
  method CheckBatch(batch: seq<FileInfo>) returns (r: Option<Rejection>)
    ensures r.None? <==> forall i :: 0 <= i < |batch| ==> Allowed(batch[i])
    ensures r.Some? ==> exists k ::
      && 0 <= k < |batch| && !Allowed(batch[k])
      && (forall j :: 0 <= j < k ==> Allowed(batch[j]))
      && (r.value == InvalidType <==> batch[k].mime !in VALID_TYPES)
  {
    for i := 0 to |batch|
      invariant forall j :: 0 <= j < i ==> Allowed(batch[j])
    {
      if batch[i].mime !in VALID_TYPES {
        return Some(InvalidType);
      }
      if batch[i].size > MAX_SIZE {
        return Some(TooLarge);
      }
    }
    return None;
  }

  /** `Array.from(picked).slice(0, 5 - files.length)`: only as many new files as there is room for. */
  function Taken(files: seq<FileInfo>, picked: seq<FileInfo>): (batch: seq<FileInfo>)
    requires |files| <= MAX_FILES
    ensures batch <= picked
    ensures |files| + |batch| <= MAX_FILES
    ensures |picked| <= MAX_FILES - |files| ==> batch == picked
    ensures |picked| > MAX_FILES - |files| ==> |files| + |batch| == MAX_FILES
  {
    if |picked| <= MAX_FILES - |files| then picked else picked[..MAX_FILES - |files|]
  }

  /** The preview's "next" arrow: from the last photo back to the first. */
  function NextIndex(i: nat, n: nat): (j: nat)
    ensures i < n ==> j < n
    ensures i < n - 1 ==> j == i + 1
  {
    if i == n - 1 then 0 else i + 1
  }

  /** The preview's "previous" arrow: from the first photo to the last. */
  function PrevIndex(i: nat, n: nat): (j: nat)
    requires n > 1
    ensures i < n ==> j < n
    ensures 0 < i ==> j == i - 1
  {
    if i == 0 then n - 1 else i - 1
  }

  /** The two arrows undo each other on every photo. */
  lemma ArrowsInverse(i: nat, n: nat)
    requires n > 1 && i < n
    ensures PrevIndex(NextIndex(i, n), n) == i
    ensures NextIndex(PrevIndex(i, n), n) == i
  {
  }

  /** The photo shown after `k` presses of "next". */
  function Advance(i: nat, n: nat, k: nat): nat {
    if k == 0 then i else NextIndex(Advance(i, n, k - 1), n)
  }

  /** Away from the last photo, "next" steps straight ahead. */
  lemma {:induction false} AdvanceStraight(i: nat, n: nat, k: nat)
    requires i + k < n
    ensures Advance(i, n, k) == i + k
    decreases k
  {
    if k > 0 {
      AdvanceStraight(i, n, k - 1);
    }
  }

  /** Presses add up: `a + b` presses are `a` presses followed by `b`. */
  lemma {:induction false} AdvanceAdd(i: nat, n: nat, a: nat, b: nat)
    ensures Advance(i, n, a + b) == Advance(Advance(i, n, a), n, b)
    decreases b
  {
    if b > 0 {
      AdvanceAdd(i, n, a, b - 1);
    }
  }

  /** Pressing "next" once per photo comes back to the photo one started from. */
  lemma FullCircle(i: nat, n: nat)
    requires i < n
    ensures Advance(i, n, n) == i
  {
    var toLast := n - 1 - i;
    AdvanceStraight(i, n, toLast);
    AdvanceAdd(i, n, toLast, 1);
    assert Advance(i, n, toLast + 1) == 0;
    AdvanceAdd(i, n, toLast + 1, i);
    AdvanceStraight(0, n, i);
  }

  /** The first failed check of `handleSubmit`, as the error it shows; none when the form is posted. */
  function SubmitCheck(files: seq<FileInfo>, category: string, custom: string): (err: Option<string>)
    ensures err.None? <==> |files| > 0 && category != "" && (category == CUSTOM ==> Trim(custom) != "")
    ensures |files| == 0 ==> err == Some("Please select at least one photo")
    ensures |files| > 0 && category == CUSTOM && Trim(custom) == "" ==> err == Some("Please enter a custom category name")
    ensures |files| > 0 && category == "" ==> err == Some("Please select a category")
  {
    if |files| == 0 then Some("Please select at least one photo")
    else if category == CUSTOM && Trim(custom) == "" then Some("Please enter a custom category name")
    else if category == "" then Some("Please select a category")
    else None
  }

  /** The category posted: the trimmed custom name when "custom" is chosen. */
  function SentCategory(category: string, custom: string): string {
    if category == CUSTOM then Trim(custom) else category
  }

  /** What the form posts: every file, in order, and the category. */
  datatype UploadRequest = UploadRequest(files: seq<FileInfo>, category: string)

  /** The server's answer: a body that is not JSON, or the parsed fields. */
  datatype Reply =
    | Unreadable(status: nat)
    | Answer(ok: bool, status: nat, success: bool, message: Option<string>)

  /** `x || fallback` on an optional text. */
  function OrElse(message: Option<string>, fallback: string): (s: string)
    ensures message.Some? && message.value != "" ==> s == message.value
    ensures !(message.Some? && message.value != "") ==> s == fallback
  {
    if message.Some? && message.value != "" then message.value else fallback
  }

  /** The error shown for an answer; none exactly when the upload succeeded. */
  function ReplyError(reply: Reply): (err: Option<string>)
    ensures err.None? <==> reply.Answer? && reply.ok && reply.success
    ensures err.Some? ==> err.value != ""
    ensures reply.Answer? && !reply.ok && reply.message.Some? && Contains(Lower(reply.message.value), "bucket") ==>
      err == Some("Storage bucket not found. Please check your upload configuration.")
  {
    match reply
    case Unreadable(status) => Some("Unexpected server response (status " + NatToString(status) + ")")
    case Answer(ok, status, success, message) =>
      if !ok then
        if message.Some? && Contains(Lower(message.value), "bucket") then
          Some("Storage bucket not found. Please check your upload configuration.")
        else Some(OrElse(message, "HTTP error! Status: " + NatToString(status)))
      else if !success then Some(OrElse(message, "Failed to upload photos"))
      else None
  }

  /** A preset category contains no whitespace. */
  lemma PresetHasNoSpace(c: string)
    requires c in CATEGORIES && c != CUSTOM
    ensures NoSpace(c) && c != ""
  {
    if c == "wedding" {
      assert NoSpace("wedding");
    } else if c == "portraits" {
      assert NoSpace("portraits");
    } else if c == "birthdays" {
      assert NoSpace("birthdays");
    } else {
      assert c == "fun-shoot";
      assert NoSpace("fun-shoot");
    }
  }

  /**
   * What the dialog posts passes the server's own checks: one to five files of an allowed type and
   * size, and a category that is not blank once the server trims it (a preset is sent as is).
   */
  lemma PostedFormAccepted(files: seq<FileInfo>, category: string, custom: string)
    requires |files| <= MAX_FILES && forall i :: 0 <= i < |files| ==> Allowed(files[i])
    requires category == "" || category in CATEGORIES
    requires SubmitCheck(files, category, custom).None?
    ensures UploadRoute.Validate(files).Valid?
    ensures Trim(SentCategory(category, custom)) != ""
    ensures category != CUSTOM ==> Trim(SentCategory(category, custom)) == category
  {
    assert forall i :: 0 <= i < |files| ==> UploadRoute.Acceptable(files[i]);
    if category == CUSTOM {
      TrimKeepsEdgeless(Trim(custom));
    } else {
      PresetHasNoSpace(category);
      TrimNoSpace(category);
    }
  }

  class UploadDialog {
    /** The picked files, in order. */
    var files: seq<FileInfo>
    var category: string
    var customCategory: string
    /** `currentPreviewIndex`. */
    var previewIndex: nat
    var previewOpen: bool
    var error: Option<string>
    var loading: bool
    /** The store's `isUploadPhotosOpen`. */
    var open: bool

    /** At most five files, each of an allowed type and size; the category is a select option or unset. */
    ghost predicate Valid()
      reads this
    {
      && |files| <= MAX_FILES
      && (forall i :: 0 <= i < |files| ==> Allowed(files[i]))
      && (category == "" || category in CATEGORIES)
    }

    constructor ()
      ensures Valid() && open && files == [] && category == "" && customCategory == ""
      ensures previewIndex == 0 && !previewOpen && error.None? && !loading
    {
      files := [];
      category := "";
      customCategory := "";
      previewIndex := 0;
      previewOpen := false;
      error := None;
      loading := false;
      open := true;
    }

    /** The store's open flag changes; the cleanup effect then drops the picked files. */
    method SetOpen(o: bool)
      requires Valid()
      modifies this
      ensures Valid() && open == o
      ensures files == if o != old(open) then [] else old(files)
      ensures category == old(category) && customCategory == old(customCategory) && error == old(error)
      ensures previewIndex == old(previewIndex) && previewOpen == old(previewOpen) && loading == old(loading)
    {
      if o != open {
        files := [];
      }
      open := o;
    }

    /**
     * `handleFileChange`: no file list changes nothing; otherwise the files that fit are checked,
     * and either all of them are added after the current ones and the error cleared, or none is.
     */
    method PickFiles(picked: Option<seq<FileInfo>>) returns (rejected: Option<Rejection>)
      requires Valid()
      modifies this
      ensures Valid()
      ensures picked.None? ==> rejected.None? && files == old(files) && error == old(error)
      ensures picked.Some? ==>
        var batch := Taken(old(files), picked.value);
        && (rejected.None? <==> forall i :: 0 <= i < |batch| ==> Allowed(batch[i]))
        && (rejected.None? ==> files == old(files) + batch && error.None?)
      ensures rejected.Some? ==> files == old(files) && error == old(error)
      ensures category == old(category) && customCategory == old(customCategory) && open == old(open)
      ensures previewIndex == old(previewIndex) && previewOpen == old(previewOpen) && loading == old(loading)
    {
      if picked.None? {
        return None;
      }
      var batch := Taken(files, picked.value);
      rejected := CheckBatch(batch);
      if rejected.None? {
        files := files + batch;
        error := None;
      }
    }

    /** `removeFile`: exactly the `index`-th file goes, the others keep their order. */
    method RemoveFile(index: nat)
      requires Valid() && index < |files|
      modifies this
      ensures Valid()
      ensures files == old(files)[..index] + old(files)[index + 1..]
      ensures multiset(files) + multiset{old(files)[index]} == multiset(old(files))
      ensures error.None?
      ensures category == old(category) && customCategory == old(customCategory) && open == old(open)
      ensures previewIndex == old(previewIndex) && previewOpen == old(previewOpen) && loading == old(loading)
    {
      ghost var before := files;
      files := files[..index] + files[index + 1..];
      assert before == before[..index] + [before[index]] + before[index + 1..];
      error := None;
    }

    /** A thumbnail or a dot of the preview: that photo is shown. */
    method OpenPreview(index: nat)
      requires Valid() && index < |files|
      modifies this
      ensures Valid() && previewOpen && previewIndex == index
      ensures files == old(files) && category == old(category) && customCategory == old(customCategory)
      ensures error == old(error) && loading == old(loading) && open == old(open)
    {
      previewIndex := index;
      previewOpen := true;
    }

    /** The "next" arrow, shown when there is more than one photo. */
    method ShowNext()
      requires Valid() && |files| > 1
      modifies this
      ensures Valid() && previewIndex == NextIndex(old(previewIndex), |files|)
      ensures old(previewIndex) < |files| ==> previewIndex < |files|
      ensures files == old(files) && category == old(category) && customCategory == old(customCategory)
      ensures error == old(error) && loading == old(loading) && open == old(open) && previewOpen == old(previewOpen)
    {
      previewIndex := if previewIndex == |files| - 1 then 0 else previewIndex + 1;
    }

    /** The "previous" arrow, shown when there is more than one photo. */
    method ShowPrevious()
      requires Valid() && |files| > 1
      modifies this
      ensures files == old(files) && category == old(category) && customCategory == old(customCategory)
      ensures Valid() && previewIndex == PrevIndex(old(previewIndex), |files|)
      ensures old(previewIndex) < |files| ==> previewIndex < |files|
      ensures error == old(error) && loading == old(loading) && open == old(open) && previewOpen == old(previewOpen)
    {
      previewIndex := if previewIndex == 0 then |files| - 1 else previewIndex - 1;
    }

    /** The category select. */
    method ChooseCategory(value: string)
      requires Valid() && value in CATEGORIES
      modifies this
      ensures Valid() && category == value
      ensures files == old(files) && customCategory == old(customCategory) && error == old(error)
      ensures previewIndex == old(previewIndex) && previewOpen == old(previewOpen)
      ensures loading == old(loading) && open == old(open)
    {
      category := value;
    }

    /** The custom category input. */
    method TypeCustomCategory(text: string)
      requires Valid()
      modifies this
      ensures Valid() && customCategory == text
      ensures files == old(files) && category == old(category) && error == old(error)
      ensures previewIndex == old(previewIndex) && previewOpen == old(previewOpen)
      ensures loading == old(loading) && open == old(open)
    {
      customCategory := text;
    }

    /**
     * `handleSubmit`: the first failed check is shown and nothing is posted; otherwise every file
     * and the category are posted, and a successful answer empties the form and closes the
     * dialog, any other answer is shown as the error.
     */
    method Submit(reply: Reply) returns (sent: Option<UploadRequest>)
      requires Valid()
      modifies this
      ensures Valid() && !loading
      ensures var check := SubmitCheck(old(files), old(category), old(customCategory));
        && (sent.Some? <==> check.None?)
        && (check.Some? ==> error == check)
      ensures sent.Some? ==> sent.value == UploadRequest(old(files), SentCategory(old(category), old(customCategory)))
      ensures sent.Some? && ReplyError(reply).None? ==>
        files == [] && category == "" && customCategory == "" && error.None? && !open
      ensures sent.None? || ReplyError(reply).Some? ==>
        && files == old(files) && category == old(category) && customCategory == old(customCategory)
        && open == old(open)
      ensures sent.Some? && ReplyError(reply).Some? ==> error == ReplyError(reply)
      ensures previewIndex == old(previewIndex) && previewOpen == old(previewOpen)
    {
      loading := true;
      error := None;
      var check := SubmitCheck(files, category, customCategory);
      if check.Some? {
        error := check;
        sent := None;
      } else {
        sent := Some(UploadRequest(files, SentCategory(category, customCategory)));
        var failure := ReplyError(reply);
        if failure.None? {
          files := [];
          category := "";
          customCategory := "";
          open := false;
        } else {
          error := failure;
        }
      }
      loading := false;
    }
  }

  /** Whatever is picked, the dialog never holds more than five files: only what fits is taken. */
  lemma PickedFit(files: seq<FileInfo>, picked: seq<FileInfo>)
    requires |files| <= MAX_FILES
    ensures |files + Taken(files, picked)| <= MAX_FILES
    ensures |files| == MAX_FILES ==> Taken(files, picked) == []
  {
  }
}
