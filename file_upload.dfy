/** The upload box: which files it accepts, the message it shows for a
    refused one, and the highlight it keeps while a file is dragged over it. */
module FileUpload {
  import opened Outcomes
  import opened Text

  /** What the box reads of a browser file. */
  datatype File = File(name: string, mimeType: string, size: nat)

  const MimeTypes: seq<string> := [
    "application/pdf",
    "application/msword",
    "application/vnd.openxmlformats-officedocument.wordprocessingml.document",
    "text/plain",
    "image/jpeg",
    "image/jpg",
    "image/png",
    "image/gif",
    "image/bmp",
    "image/webp"]

  /** The extensions accepted at the very end of the lower-cased name. */
  const Extensions: seq<string> := ["pdf", "doc", "docx", "txt", "jpg", "jpeg", "png", "gif", "bmp", "webp"]

  /** 10 MiB. */
  const MaxSize: nat := 10 * 1024 * 1024

  const TypeMessage: string := "Please upload a PDF, Word document, text file, or image file."
  const SizeMessage: string := "File size must be less than 10MB."

  /** A listed MIME type, or a lower-cased name ending in a dot and a listed
      extension. */
  predicate TypeAccepted(f: File)
  {
    f.mimeType in MimeTypes || exists ext :: ext in Extensions && EndsWith(Lower(f.name), "." + ext)
  }

  /** The error `validateFile` leaves behind: none for an accepted file. The
      type is checked first, so a file of the wrong type gets the type
      message whatever its size. */
  function Validation(f: File): (r: Option<string>)
    ensures r.None? <==> TypeAccepted(f) && f.size <= MaxSize
    ensures !TypeAccepted(f) ==> r == Some(TypeMessage)
    ensures TypeAccepted(f) && f.size > MaxSize ==> r == Some(SizeMessage)
  {
    if !TypeAccepted(f) then Some(TypeMessage)
    else if f.size > MaxSize then Some(SizeMessage)
    else None
  }

  /** Exactly 10 MiB is still accepted; one byte more is refused. */
  lemma SizeBoundary(name: string, mimeType: string)
    requires mimeType in MimeTypes
    ensures Validation(File(name, mimeType, MaxSize)) == None
    ensures Validation(File(name, mimeType, MaxSize + 1)) == Some(SizeMessage)
  {
  }

  /** Shrinking an accepted file keeps it accepted. */
  lemma SmallerAccepted(f: File, size: nat)
    requires Validation(f) == None && size <= f.size
    ensures Validation(f.(size := size)) == None
  {
    assert f.(size := size).name == f.name && f.(size := size).mimeType == f.mimeType;
  }

  /** Lower-casing the tail of a name is lower-casing the tail. */
  lemma LowerSuffix(stem: string, tail: string)
    ensures Lower(stem + tail)[|stem|..] == Lower(tail)
  {
    var s := stem + tail;
    assert forall i :: 0 <= i < |tail| ==> Lower(s)[|stem|..][i] == LowerChar(s[|stem| + i]) == LowerChar(tail[i]);
  }

  /** The extension is matched whatever its case: "REPORT.PDF" is accepted
      under any MIME type the browser reports. */
  lemma ExtensionCaseIgnored(stem: string, ext: string, mimeType: string, size: nat)
    requires ext in Extensions
    ensures TypeAccepted(File(stem + "." + Upper(ext), mimeType, size))
  {
    var name := stem + ("." + Upper(ext));
    assert stem + "." + Upper(ext) == name;
    LowerSuffix(stem, "." + Upper(ext));
    assert Lower("." + Upper(ext)) == "." + ext;
    assert EndsWith(Lower(name), "." + ext);
  }

  /** The box's own state: the drag highlight and the error shown. */
  class Uploader {
    var dragActive: bool
    var error: Option<string>

    constructor()
      ensures !dragActive && error == None
    {
      dragActive := false;
      error := None;
    }

    /** `validateFile`: records the error (clearing it on acceptance) and
        answers whether the file is accepted. */
    method ValidateFile(f: File) returns (ok: bool)
      modifies this
      ensures ok <==> TypeAccepted(f) && f.size <= MaxSize
      ensures error == Validation(f) && dragActive == old(dragActive)
    {
      error := Validation(f);
      ok := error.None?;
    }

    /** `handleDrag`: entering or moving over the box lights it, leaving it
        turns the light off, any other event changes nothing. */
    method Drag(eventType: string)
      modifies this
      ensures eventType == "dragenter" || eventType == "dragover" ==> dragActive
      ensures eventType == "dragleave" ==> !dragActive
      ensures eventType !in {"dragenter", "dragover", "dragleave"} ==> dragActive == old(dragActive)
      ensures error == old(error)
    {
      if eventType == "dragenter" || eventType == "dragover" {
        dragActive := true;
      } else if eventType == "dragleave" {
        dragActive := false;
      }
    }

    /** The first of the given files is validated and, when accepted,
        handed on; the others are ignored. */
    method Pick(files: seq<File>) returns (selected: Option<File>)
      modifies this
      ensures files == [] ==> selected == None && error == old(error)
      ensures files != [] ==> error == Validation(files[0])
      ensures files != [] ==> (selected == Some(files[0]) <==> Validation(files[0]) == None)
      ensures selected.Some? ==> files != [] && selected == Some(files[0])
      ensures dragActive == old(dragActive)
    {
      selected := None;
      if files != [] {
        var ok := ValidateFile(files[0]);
        if ok {
          selected := Some(files[0]);
        }
      }
    }

    /** `handleDrop`: the highlight always goes off, then the first dropped
        file is picked. */
    method Drop(files: seq<File>) returns (selected: Option<File>)
      modifies this
      ensures !dragActive
      ensures files == [] ==> selected == None && error == old(error)
      ensures files != [] ==> error == Validation(files[0])
      ensures selected.Some? <==> files != [] && Validation(files[0]) == None
      ensures selected.Some? ==> selected == Some(files[0])
    {
      dragActive := false;
      selected := Pick(files);
    }

    /** `handleFileInput`: the first chosen file is picked; the highlight is
        left as it was. */
    method FileInput(files: seq<File>) returns (selected: Option<File>)
      modifies this
      ensures dragActive == old(dragActive)
      ensures files == [] ==> selected == None && error == old(error)
      ensures files != [] ==> error == Validation(files[0])
      ensures selected.Some? <==> files != [] && Validation(files[0]) == None
      ensures selected.Some? ==> selected == Some(files[0])
    {
      selected := Pick(files);
    }
  }
}
