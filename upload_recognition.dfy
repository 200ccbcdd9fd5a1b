/**
 * backend/app/routes/upload_recognition.py: the labelled-face upload. The checks, the
 * extension filter and the path the image is saved under are modelled; werkzeug's
 * `secure_filename` and the clock are inputs, the saved files and the emitted Socket.IO
 * events are sequences the handler appends to.
 */
module UploadRecognition {
  import opened Common

  const UploadFolder: string := "dataset"
  const AllowedImages: set<string> := {"png", "jpg", "jpeg"}

  /** allowed_file. */
  function AllowedImage(filename: string): (r: bool)
    ensures r <==> exists i :: 0 <= i < |filename| && filename[i] == '.'
                             && (forall j :: i < j < |filename| ==> filename[j] != '.')
                             && Lower(filename[i + 1..]) in AllowedImages
  {
    AllowedExtension(filename, AllowedImages)
  }

  /** The extension is compared in lower case. */
  lemma UpperCaseExtensionAllowed()
    ensures AllowedImage("face.JPG")
  {
    assert "face.JPG"[4] == '.';
    assert Lower("face.JPG"[5..]) == "jpg";
  }

  /** Only the suffix after the last dot counts. */
  lemma LastSuffixDecides()
    ensures AllowedImage("a.b.png") && !AllowedImage("face.png.gif")
  {
    assert "a.b.png"[3] == '.';
    assert Lower("a.b.png"[4..]) == "png";
    var t := "face.png.gif";
    forall i | 0 <= i < |t| && t[i] == '.' && (forall j :: i < j < |t| ==> t[j] != '.')
      ensures i == 8
    {
      assert t[8] == '.';
    }
    assert Lower(t[9..]) == "gif";
  }

  /** A name without a dot has no extension, even when it is one. */
  lemma NoDotRefused()
    ensures !AllowedImage("png")
  {
  }

  /** `os.path.join(a, b)` on POSIX for two components. */
  function PathJoin(a: string, b: string): (r: string)
    ensures b != [] && b[0] == '/' ==> r == b
    ensures !(b != [] && b[0] == '/') && a != [] && a[|a| - 1] != '/' ==> r == a + "/" + b
    ensures |b| <= |r| && r[|r| - |b|..] == b
    ensures !(b != [] && b[0] == '/') ==> a <= r
  {
    if b != [] && b[0] == '/' then b
    else if a == [] || a[|a| - 1] == '/' then a + b
    else a + "/" + b
  }

  datatype UploadResponse =
    | MissingFields                   // 400
    | UnsupportedFileType             // 400
    | Saved(inmateName: string, location: string, filename: string, path: string)   // 201

  /** The payload of the 'face_uploaded' event. */
  datatype FaceUploaded = FaceUploaded(inmateName: string, location: string, file: string, path: string)

  /** A single path component: secure_filename never returns a name holding a '/'. */
  predicate NoSlash(s: string)
  {
    forall i :: 0 <= i < |s| ==> s[i] != '/'
  }

  /** The file name `secure_filename(f"{inmate_name}_{timestamp}.jpg")`. */
  function SavedName(inmateName: string, timestamp: string, secure: string -> string): string
  {
    secure(inmateName + "_" + timestamp + ".jpg")
  }

  /** The path `dataset/<secure(name)>/<file name>`. */
  function SavedPath(inmateName: string, timestamp: string, secure: string -> string): (p: string)
    ensures var f := SavedName(inmateName, timestamp, secure);
            |f| <= |p| && p[|p| - |f|..] == f
    ensures var d, f := secure(inmateName), SavedName(inmateName, timestamp, secure);
            NoSlash(d) && NoSlash(f) ==> p == UploadFolder + "/" + d + (if d == "" then "" else "/") + f
  {
    var d, f := secure(inmateName), SavedName(inmateName, timestamp, secure);
    var dir := PathJoin(UploadFolder, d);
    assert NoSlash(d) ==> dir == UploadFolder + "/" + d;
    PathJoin(dir, f)
  }

  /** The decision of upload_face: which response it gives for which form. */
  function UploadDecision(filename: Option<string>, inmateName: Option<string>, location: Option<string>,
                          timestamp: string, secure: string -> string): (r: UploadResponse)
    ensures r == MissingFields <==> !Truthy(filename) || !Truthy(inmateName) || !Truthy(location)
    ensures r == UnsupportedFileType <==>
              Truthy(filename) && Truthy(inmateName) && Truthy(location) && !AllowedImage(filename.value)
    ensures r.Saved? ==>
              && r.inmateName == inmateName.value && r.location == location.value
              && r.filename == SavedName(inmateName.value, timestamp, secure)
              && r.path == SavedPath(inmateName.value, timestamp, secure)
  {
    if !Truthy(filename) || !Truthy(inmateName) || !Truthy(location) then MissingFields
    else if !AllowedImage(filename.value) then UnsupportedFileType
    else
      Saved(inmateName.value, location.value, SavedName(inmateName.value, timestamp, secure),
            SavedPath(inmateName.value, timestamp, secure))
  }

  /** The files under the dataset folder and the Socket.IO events sent so far. */
  class Dataset {
    var saved: seq<string>
    var events: seq<FaceUploaded>

    constructor()
      ensures saved == [] && events == []
    {
      saved := [];
      events := [];
    }

    /**
     * upload_face: a refused request writes nothing; an accepted one saves the file and
     * tries to emit the event. Whether the emit fails (`emitOk`) never changes the 201.
     */
    method UploadFace(filename: Option<string>, inmateName: Option<string>, location: Option<string>,
                      timestamp: string, secure: string -> string, emitOk: bool)
      returns (r: UploadResponse)
      modifies this
      ensures r == UploadDecision(filename, inmateName, location, timestamp, secure)
      ensures !r.Saved? ==> saved == old(saved) && events == old(events)
      ensures r.Saved? ==> saved == old(saved) + [r.path]
      ensures r.Saved? && emitOk ==>
                events == old(events) + [FaceUploaded(r.inmateName, r.location, r.filename, r.path)]
      ensures r.Saved? && !emitOk ==> events == old(events)
    {
      r := UploadDecision(filename, inmateName, location, timestamp, secure);
      if r.Saved? {
        saved := saved + [r.path];
        if emitOk {
          events := events + [FaceUploaded(r.inmateName, r.location, r.filename, r.path)];
        }
      }
    }
  }
}
