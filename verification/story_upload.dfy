/**
 * The story uploader (src/components/StoryUpload.tsx): a file picker whose
 * change handler admits a file only when its media type is on a fixed
 * allow-list and its size is within a ceiling, a submit action guarded by the
 * selection, and a clear action.
 *
 * The accept/reject decision is pure (`Validate`); the handlers are methods of
 * `UploadForm`, whose object invariant is that a selection exists only if it
 * passed both checks.
 */
module StoryUpload {
  import opened Common

  /** A picked file, as far as the handlers look at it. */
  datatype File = File(name: string, mimeType: string, size: nat)

  const Mebibyte: nat := 1024 * 1024

  /** The ceiling used when the `maxSizeBytes` prop is not given. */
  const DefaultMaxSizeBytes: nat := 10 * Mebibyte

  const AllowedMimeTypes: seq<string> := [
    "application/pdf",
    "application/msword",
    "application/vnd.openxmlformats-officedocument.wordprocessingml.document"
  ]

  const InvalidTypeMessage: string := "Invalid file type. Please upload a PDF, DOC, or DOCX file."
  const NoFileMessage: string := "Please select a file to upload."
  const TooLargePrefix: string := "File is too large. Max size is "
  const TooLargeSuffix: string := " MB."

  predicate IsAllowedType(mimeType: string) {
    mimeType in AllowedMimeTypes
  }

  /** A file that passes both checks of the change handler. */
  predicate Acceptable(file: File, maxSizeBytes: nat) {
    IsAllowedType(file.mimeType) && file.size <= maxSizeBytes
  }

  predicate IsDigit(c: char) {
    '0' <= c <= '9'
  }

  predicate AllDigits(s: string) {
    forall i :: 0 <= i < |s| ==> IsDigit(s[i])
  }

  /** The number a string of decimal digits denotes, most significant first. */
  function DigitsValue(s: string): nat
    requires AllDigits(s)
  {
    if s == [] then 0
    else 10 * DigitsValue(s[..|s| - 1]) + (s[|s| - 1] as int - '0' as int)
  }

  /** How a template literal prints a non-negative integer below 2^53: its exact decimal form. */
  function DecimalString(n: nat): (s: string)
    ensures |s| >= 1 && AllDigits(s)
    ensures |s| > 1 ==> s[0] != '0'
    ensures DigitsValue(s) == n
  {
    var last := [(n % 10 + '0' as int) as char];
    if n < 10 then last
    else
      var front := DecimalString(n / 10);
      assert (front + last)[..|front|] == front;
      front + last
  }

  /**
   * The too-large message: the ceiling is stated as a whole number of
   * megabytes, `Math.floor(maxSizeBytes / (1024 * 1024))`.
   */
  function TooLargeMessage(maxSizeBytes: nat): (m: string)
    ensures |m| > |TooLargePrefix| + |TooLargeSuffix|
    ensures m[..|TooLargePrefix|] == TooLargePrefix
    ensures m[|m| - |TooLargeSuffix|..] == TooLargeSuffix
    ensures var digits := m[|TooLargePrefix|..|m| - |TooLargeSuffix|];
            && AllDigits(digits) && DigitsValue(digits) == maxSizeBytes / Mebibyte
            && (|digits| > 1 ==> digits[0] != '0')
  {
    var digits := DecimalString(maxSizeBytes / Mebibyte);
    var m := TooLargePrefix + digits + TooLargeSuffix;
    assert m[|TooLargePrefix|..|m| - |TooLargeSuffix|] == digits;
    m
  }

  /** With the default ceiling the message reads "10 MB". */
  lemma DefaultCeilingMessage()
    ensures TooLargeMessage(DefaultMaxSizeBytes) == "File is too large. Max size is 10 MB."
  {
  }

  /** What one change event of the file picker decides. */
  datatype Verdict = NoFile | Accepted(file: File) | Rejected(message: string)

  /**
   * The decision of `handleFileChange` for the first picked file (if any):
   * the type check runs before the size check.
   */
  function Validate(file: Option<File>, maxSizeBytes: nat): (v: Verdict)
    ensures v.NoFile? <==> file.None?
    ensures v.Accepted? <==> file.Some? && Acceptable(file.value, maxSizeBytes)
    ensures v.Accepted? ==> v.file == file.value
    ensures file.Some? && !IsAllowedType(file.value.mimeType) ==> v == Rejected(InvalidTypeMessage)
    ensures file.Some? && IsAllowedType(file.value.mimeType) && file.value.size > maxSizeBytes ==>
              v == Rejected(TooLargeMessage(maxSizeBytes))
  {
    match file
    case None => NoFile
    case Some(f) =>
      if f.mimeType !in AllowedMimeTypes then Rejected(InvalidTypeMessage)
      else if f.size > maxSizeBytes then Rejected(TooLargeMessage(maxSizeBytes))
      else Accepted(f)
  }

  /** `files[0]` of the picker's file list, `undefined` when the list is empty. */
  function FirstFile(files: seq<File>): (f: Option<File>)
    ensures f.Some? <==> |files| > 0
    ensures f.Some? ==> f.value == files[0]
  {
    if |files| == 0 then None else Some(files[0])
  }

  /** What a submit hands out: the file to `onSubmit`, or the local acknowledgement. */
  datatype SubmitEffect = Delivered(file: File) | Acknowledged(file: File)

  class UploadForm {
    const maxSizeBytes: nat
    /** Whether the `onSubmit` prop was supplied. */
    const hasOnSubmit: bool
    var selectedFile: Option<File>
    var errorMessage: Option<string>
    /** The file list held by the `<input type="file">` element. */
    var pickerFiles: seq<File>
    /** Every submission handed out, oldest first. */
    var effects: seq<SubmitEffect>

    /**
     * A selection exists only if it passed both checks; it is the picker's
     * first file; no error is shown beside it; and any error is one of the
     * three messages the handlers set.
     */
    ghost predicate Valid()
      reads this
    {
      && (selectedFile.Some? ==>
            && Acceptable(selectedFile.value, maxSizeBytes)
            && |pickerFiles| > 0 && pickerFiles[0] == selectedFile.value
            && errorMessage.None?)
      && (errorMessage.Some? ==>
            errorMessage.value in {InvalidTypeMessage, TooLargeMessage(maxSizeBytes), NoFileMessage})
    }

    /** Mounting the component: `maxSizeBytes` defaults to 10 MiB. */
    constructor (maxSizeBytes: Option<nat>, hasOnSubmit: bool)
      ensures Valid()
      ensures this.maxSizeBytes == (if maxSizeBytes.Some? then maxSizeBytes.value else DefaultMaxSizeBytes)
      ensures this.hasOnSubmit == hasOnSubmit
      ensures selectedFile.None? && errorMessage.None? && pickerFiles == [] && effects == []
    {
      this.maxSizeBytes := if maxSizeBytes.Some? then maxSizeBytes.value else DefaultMaxSizeBytes;
      this.hasOnSubmit := hasOnSubmit;
      selectedFile := None;
      errorMessage := None;
      pickerFiles := [];
      effects := [];
    }

    /** The picker's change event, after the browser stored `files` in it. */
    method HandleFileChange(files: seq<File>)
      requires Valid()
      modifies this
      ensures Valid()
      ensures pickerFiles == files && effects == old(effects)
      ensures match Validate(FirstFile(files), maxSizeBytes)
              case NoFile => selectedFile.None? && errorMessage.None?
              case Accepted(f) => selectedFile == Some(f) && errorMessage.None?
              case Rejected(msg) => selectedFile.None? && errorMessage == Some(msg)
    {
      pickerFiles := files;
      var file := FirstFile(files);
      if file.None? {
        selectedFile := None;
        errorMessage := None;
        return;
      }
      if file.value.mimeType !in AllowedMimeTypes {
        selectedFile := None;
        errorMessage := Some(InvalidTypeMessage);
        return;
      }
      if file.value.size > maxSizeBytes {
        selectedFile := None;
        errorMessage := Some(TooLargeMessage(maxSizeBytes));
        return;
      }
      errorMessage := None;
      selectedFile := file;
    }

    /**
     * The form's submit: without a selection it only sets the prompt; with
     * one it hands the file out exactly once and leaves the state as it was.
     */
    method HandleSubmit()
      requires Valid()
      modifies this`errorMessage, this`effects
      ensures Valid()
      ensures selectedFile == old(selectedFile) && pickerFiles == old(pickerFiles)
      ensures old(selectedFile).None? ==>
                errorMessage == Some(NoFileMessage) && effects == old(effects)
      ensures old(selectedFile).Some? ==>
                && errorMessage == old(errorMessage)
                && effects == old(effects) + [if hasOnSubmit then Delivered(selectedFile.value)
                                                             else Acknowledged(selectedFile.value)]
    {
      if selectedFile.None? {
        errorMessage := Some(NoFileMessage);
        return;
      }
      if hasOnSubmit {
        effects := effects + [Delivered(selectedFile.value)];
      } else {
        effects := effects + [Acknowledged(selectedFile.value)];
      }
    }

    /** The Clear button: selection, error and the picker's value are reset together. */
    method HandleClear()
      requires Valid()
      modifies this
      ensures Valid()
      ensures selectedFile.None? && errorMessage.None? && pickerFiles == []
      ensures effects == old(effects)
    {
      selectedFile := None;
      errorMessage := None;
      pickerFiles := [];
    }

    /** The Upload button's `disabled` attribute; when enabled, the file it would submit is acceptable. */
    function SubmitDisabled(): (disabled: bool)
      reads this
      requires Valid()
      ensures disabled <==> selectedFile.None?
      ensures !disabled ==> Acceptable(selectedFile.value, maxSizeBytes) && errorMessage.None?
    {
      selectedFile.None?
    }
  }
}
