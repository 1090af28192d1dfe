/** The upload drop zone of the web app
    (`web/components/upload-dropzone.tsx`): which picked files it takes, and
    its state after a pick. */
module Dropzone {
  import opened Common
  import opened Strings

  const DefaultAccept: string := "image/png,image/jpeg"
  const DefaultMaxBytes: nat := 6 * 1024 * 1024
  const TypeError: string := "Only PNG/JPG allowed"
  const SizeError: string := "Max 6MB file size"

  /** A picked file: its declared type and its size. */
  datatype File = File(name: string, fileType: string, size: nat)

  /** `validate`: the type must equal one of the comma-separated accepted
      types exactly, and is checked before the size. */
  function Validate(accept: string, maxBytes: nat, f: File): (r: Option<string>)
    ensures f.fileType !in Split(accept, ',') ==> r == Some(TypeError)
    ensures f.fileType in Split(accept, ',') && f.size > maxBytes ==> r == Some(SizeError)
    ensures r.None? <==> f.fileType in Split(accept, ',') && f.size <= maxBytes
  {
    if f.fileType !in Split(accept, ',') then Some(TypeError)
    else if f.size > maxBytes then Some(SizeError)
    else None
  }

  /** The default list accepts exactly PNG and JPEG. */
  lemma DefaultAcceptsPngAndJpeg()
    ensures Split(DefaultAccept, ',') == ["image/png", "image/jpeg"]
  {
    var png, jpeg := "image/png", "image/jpeg";
    assert ',' !in png && ',' !in jpeg;
    assert DefaultAccept == png + [','] + jpeg;
    SplitTwo(png, jpeg);
    assert Split(DefaultAccept, ',') == [png, jpeg];
  }

  /** With the defaults, a file that passes is a PNG or a JPEG of at most
      6 MiB. */
  lemma DefaultsPassOnlyImages(f: File)
    requires Validate(DefaultAccept, DefaultMaxBytes, f).None?
    ensures (f.fileType == "image/png" || f.fileType == "image/jpeg") && f.size <= DefaultMaxBytes
  {
    DefaultAcceptsPngAndJpeg();
    InPair(f.fileType, "image/png", "image/jpeg");
  }

  lemma InPair(x: string, a: string, b: string)
    requires x in [a, b]
    ensures x == a || x == b
  {
  }

  /** Two pieces joined by one comma split apart again. */
  lemma SplitTwo(a: string, b: string)
    requires ',' !in a && ',' !in b
    ensures Split(a + [','] + b, ',') == [a, b]
  {
    var s := a + [','] + b;
    assert s[|a|] == ',';
    assert forall j :: 0 <= j < |a| ==> s[j] == a[j];
    assert FirstIndex(s, ',') == |a|;
    assert s[..|a|] == a;
    assert s[|a| + 1..] == b;
    assert FirstIndex(b, ',') == |b|;
    assert Split(b, ',') == [b];
  }

  /** A file of exactly the limit passes; an oversized file of the wrong
      type reports the type. */
  lemma LimitAndOrder(accept: string, maxBytes: nat, f: File)
    ensures f.fileType in Split(accept, ',') && f.size == maxBytes ==> Validate(accept, maxBytes, f).None?
    ensures f.fileType !in Split(accept, ',') && f.size > maxBytes ==> Validate(accept, maxBytes, f) == Some(TypeError)
  {
  }

  /** The drop zone's state: the chosen file, the error shown, and the files
      handed to `onFile` so far. */
  datatype Zone = Zone(file: Option<File>, error: Option<string>, notified: seq<Option<File>>)

  /** `onPick`: no file clears the choice and notifies it; an invalid file
      only shows its error; a valid one clears the error, is chosen and is
      notified. */
  function Picked(accept: string, maxBytes: nat, z: Zone, f: Option<File>): (r: Zone)
    ensures f.None? ==> r == Zone(None, z.error, z.notified + [None])
    ensures f.Some? && Validate(accept, maxBytes, f.value).Some? ==>
      r == z.(error := Validate(accept, maxBytes, f.value))
    ensures f.Some? && Validate(accept, maxBytes, f.value).None? ==>
      r == Zone(f, None, z.notified + [f])
  {
    match f
    case None => Zone(None, z.error, z.notified + [None])
    case Some(file) =>
      match Validate(accept, maxBytes, file)
      case Some(err) => z.(error := Some(err))
      case None => Zone(f, None, z.notified + [f])
  }

  /** Only files that pass the checks ever reach `onFile`. */
  lemma {:induction false} OnlyValidNotified(accept: string, maxBytes: nat, z: Zone, picks: seq<Option<File>>)
    requires AllValid(accept, maxBytes, z.notified)
    ensures AllValid(accept, maxBytes, PickAll(accept, maxBytes, z, picks).notified)
    decreases |picks|
  {
    if picks != [] {
      var z1 := Picked(accept, maxBytes, z, picks[0]);
      assert AllValid(accept, maxBytes, z1.notified) by {
        forall i | 0 <= i < |z1.notified| && z1.notified[i].Some?
          ensures Validate(accept, maxBytes, z1.notified[i].value).None?
        {
          if i < |z.notified| {
            assert z1.notified[i] == z.notified[i];
          }
        }
      }
      OnlyValidNotified(accept, maxBytes, z1, picks[1..]);
      assert PickAll(accept, maxBytes, z, picks) == PickAll(accept, maxBytes, z1, picks[1..]);
    }
  }

  /** Every file in `notified` passes the checks. */
  predicate AllValid(accept: string, maxBytes: nat, notified: seq<Option<File>>) {
    forall i :: 0 <= i < |notified| ==> notified[i].Some? ==> Validate(accept, maxBytes, notified[i].value).None?
  }

  function PickAll(accept: string, maxBytes: nat, z: Zone, picks: seq<Option<File>>): Zone
    decreases |picks|
  {
    if picks == [] then z else PickAll(accept, maxBytes, Picked(accept, maxBytes, z, picks[0]), picks[1..])
  }

  /** The component's state. */
  class UploadDropzone {
    const accept: string
    const maxBytes: nat
    var file: Option<File>
    var error: Option<string>
    var notified: seq<Option<File>>

    constructor (accept: string, maxBytes: nat)
      ensures this.accept == accept && this.maxBytes == maxBytes
      ensures file == None && error == None && notified == []
    {
      this.accept := accept;
      this.maxBytes := maxBytes;
      file := None;
      error := None;
      notified := [];
    }

    method OnPick(f: Option<File>)
      modifies this
      ensures Zone(file, error, notified) == Picked(accept, maxBytes, old(Zone(file, error, notified)), f)
    {
      if f.None? {
        file := None;
        notified := notified + [None];
        return;
      }
      var err := Validate(accept, maxBytes, f.value);
      if err.Some? {
        error := err;
        return;
      }
      error := None;
      file := f;
      notified := notified + [f];
    }
  }
}
