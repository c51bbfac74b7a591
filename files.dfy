/** File admission (files.js, `FileManager`): the size ceiling, the MIME whitelist by category,
    the file-name safety rules, category and icon lookup, and the filtering and truncation of a
    selection. */
module Files {
  import opened Common
  import opened JsValue

  const MaxFileSize: nat := 10 * MiB

  /** A named list of allowed MIME types. */
  datatype Category = Category(name: string, types: seq<string>)

  /** `allowedTypes`, in its declaration order (the order `Object.entries` yields). */
  const AllowedTypes: seq<Category> := [
    Category("images", ["image/jpeg", "image/png", "image/gif", "image/webp", "image/svg+xml"]),
    Category("documents", ["application/pdf", "text/plain", "application/msword",
      "application/vnd.openxmlformats-officedocument.wordprocessingml.document",
      "application/vnd.ms-excel",
      "application/vnd.openxmlformats-officedocument.spreadsheetml.sheet"]),
    Category("archives", ["application/zip", "application/x-rar-compressed", "application/x-7z-compressed"]),
    Category("audio", ["audio/mpeg", "audio/wav", "audio/ogg", "audio/webm"]),
    Category("video", ["video/mp4", "video/webm", "video/ogg"])
  ]

  const Unknown: string := "unknown"

  /** `formatFileSize(10 * 1024 * 1024)` is "10 MB". */
  const TooLargeError: string := "Fichier trop volumineux (max 10 MB)"
  const TypeNotAllowedError: string := "Type de fichier non autorisé"
  const UnsafeNameError: string := "Nom de fichier non sécurisé"

  /** `isTypeAllowed`: some category lists the type. */
  predicate IsTypeAllowed(mimeType: string)
  {
    exists i :: 0 <= i < |AllowedTypes| && mimeType in AllowedTypes[i].types
  }

  /** The index of the first category that lists the type, if any. */
  function FirstContaining(categories: seq<Category>, mimeType: string): (r: Option<nat>)
    ensures r.Some? ==> r.value < |categories| && mimeType in categories[r.value].types
    ensures r.Some? ==> forall j :: 0 <= j < r.value ==> mimeType !in categories[j].types
    ensures r.None? <==> forall j :: 0 <= j < |categories| ==> mimeType !in categories[j].types
    decreases |categories|
  {
    if categories == [] then None
    else if mimeType in categories[0].types then Some(0)
    else match FirstContaining(categories[1..], mimeType)
      case None => None
      case Some(k) => Some(k + 1)
  }

  /** `getFileCategory`: the name of the first category listing the type, else "unknown". */
  function GetFileCategory(mimeType: string): string
  {
    match FirstContaining(AllowedTypes, mimeType)
    case None => Unknown
    case Some(i) => AllowedTypes[i].name
  }

  /** A type has a category other than "unknown" exactly when it is allowed, and then the
      category is one that lists it. */
  lemma CategoryIffAllowed(mimeType: string)
    ensures GetFileCategory(mimeType) != Unknown <==> IsTypeAllowed(mimeType)
    ensures IsTypeAllowed(mimeType) ==>
      exists i :: 0 <= i < |AllowedTypes| && AllowedTypes[i].name == GetFileCategory(mimeType)
        && mimeType in AllowedTypes[i].types
  {
    var r := FirstContaining(AllowedTypes, mimeType);
    if r.Some? {
      assert AllowedTypes[r.value].name in ["images", "documents", "archives", "audio", "video"];
    }
  }

  /** No type is listed under two categories, so the category found is the only one. */
  lemma CategoriesDisjoint(mimeType: string, i: nat, j: nat)
    requires i < j < |AllowedTypes| && mimeType in AllowedTypes[i].types
    ensures mimeType !in AllowedTypes[j].types
  {
  }

  const ImagesIcon: string := "\U{1F5BC}\U{FE0F}"
  const DocumentsIcon: string := "\U{1F4C4}"
  const ArchivesIcon: string := "\U{1F4E6}"
  const AudioIcon: string := "\U{1F3B5}"
  const VideoIcon: string := "\U{1F3AC}"
  const UnknownIcon: string := "\U{1F4CE}"

  /** `icons[category] || icons.unknown`. */
  function Icon(category: string): string
  {
    if category == "images" then ImagesIcon
    else if category == "documents" then DocumentsIcon
    else if category == "archives" then ArchivesIcon
    else if category == "audio" then AudioIcon
    else if category == "video" then VideoIcon
    else UnknownIcon
  }

  /** `getFileIcon`. */
  function GetFileIcon(mimeType: string): string
  {
    Icon(GetFileCategory(mimeType))
  }

  /** Every type gets an icon, and the paperclip exactly when the type is not allowed. */
  lemma IconOfUnknown(mimeType: string)
    ensures GetFileIcon(mimeType) in {ImagesIcon, DocumentsIcon, ArchivesIcon, AudioIcon, VideoIcon, UnknownIcon}
    ensures GetFileIcon(mimeType) == UnknownIcon <==> !IsTypeAllowed(mimeType)
  {
    CategoryIffAllowed(mimeType);
    var r := FirstContaining(AllowedTypes, mimeType);
    if r.Some? {
      NamedCategoryIcon(r.value);
    }
  }

  /** Each category of the whitelist has an icon of its own, never the paperclip. */
  lemma NamedCategoryIcon(i: nat)
    requires i < |AllowedTypes|
    ensures Icon(AllowedTypes[i].name) != UnknownIcon
  {
    assert AllowedTypes[i].name in ["images", "documents", "archives", "audio", "video"];
    assert UnknownIcon[0] != ImagesIcon[0] && UnknownIcon[0] != DocumentsIcon[0] && UnknownIcon[0] != ArchivesIcon[0]
      && UnknownIcon[0] != AudioIcon[0] && UnknownIcon[0] != VideoIcon[0];
  }

  // File-name safety

  const DangerousChars: string := "<>:\"/\\|?*"
  const DangerousExtensions: seq<string> := ["exe", "bat", "cmd", "com", "pif", "scr", "vbs", "js", "jar", "msi", "dll", "sys"]
  const MaxNameLength: nat := 255

  /** A character of `[<>:"/\\|?*\x00-\x1f]`. */
  predicate IsDangerousChar(c: char)
  {
    c in DangerousChars || c <= '\U{1F}'
  }

  /** The canonicalisation of a non-Unicode case-insensitive regular expression: ASCII letters
      match either case, every other character only itself. */
  function AsciiUpper(c: char): (u: char)
    ensures IsDangerousChar(u) == IsDangerousChar(c)
    ensures u == '.' <==> c == '.'
    ensures c as int > 0xFFFF <==> u as int > 0xFFFF
  {
    if 'a' <= c <= 'z' then (c as int - 32) as char else c
  }

  function UpperString(s: string): (u: string)
    ensures |u| == |s| && forall i :: 0 <= i < |s| ==> u[i] == AsciiUpper(s[i])
  {
    seq(|s|, i requires 0 <= i < |s| => AsciiUpper(s[i]))
  }

  /** `fileName.split('.')[0]`: everything before the first '.'. */
  function BeforeFirstDot(s: string): (r: string)
    ensures r <= s && '.' !in r
    ensures |r| < |s| ==> s[|r|] == '.'
  {
    if s == [] || s[0] == '.' then [] else [s[0]] + BeforeFirstDot(s[1..])
  }

  /** `/^(CON|PRN|AUX|NUL|COM[1-9]|LPT[1-9])$/i`. */
  predicate IsReservedName(s: string)
  {
    var u := UpperString(s);
    u in {"CON", "PRN", "AUX", "NUL"}
    || (|u| == 4 && u[..3] in {"COM", "LPT"} && '1' <= u[3] <= '9')
  }

  /** `fileName.length`: the number of UTF-16 code units. */
  function Utf16Length(s: string): (n: nat)
    ensures |s| <= n <= 2 * |s|
  {
    if s == [] then 0 else Utf16Length(s[..|s| - 1]) + (if s[|s| - 1] as int > 0xFFFF then 2 else 1)
  }

  /** The name ends in `suffix`, ASCII letters compared without case. */
  predicate EndsWithIgnoreCase(s: string, suffix: string)
  {
    |s| >= |suffix| && UpperString(s[|s| - |suffix|..]) == UpperString(suffix)
  }

  /** `/\.(exe|bat|cmd|com|pif|scr|vbs|js|jar|msi|dll|sys)$/i`. */
  predicate HasDangerousExtension(s: string)
  {
    exists e :: e in DangerousExtensions && EndsWithIgnoreCase(s, "." + e)
  }

  predicate HasDangerousChar(s: string)
  {
    exists i :: 0 <= i < |s| && IsDangerousChar(s[i])
  }

  /** `isFileNameSafe`: a non-empty name with no dangerous character, no reserved device name
      before its first '.', at most 255 UTF-16 code units and no dangerous extension. */
  predicate IsFileNameSafe(name: string)
  {
    name != ""
    && !HasDangerousChar(name)
    && !IsReservedName(BeforeFirstDot(name))
    && Utf16Length(name) <= MaxNameLength
    && !HasDangerousExtension(name)
  }

  /** Safety does not depend on the case of ASCII letters. */
  lemma SafetyIgnoresCase(name: string)
    ensures IsFileNameSafe(UpperString(name)) == IsFileNameSafe(name)
  {
    DangerousCharUpper(name);
    UpperBeforeFirstDot(name);
    UpperTwice(BeforeFirstDot(name));
    Utf16LengthUpper(name);
    DangerousExtensionUpper(name);
  }

  lemma DangerousCharUpper(name: string)
    ensures HasDangerousChar(UpperString(name)) == HasDangerousChar(name)
  {
    var u := UpperString(name);
    if HasDangerousChar(name) {
      var i :| 0 <= i < |name| && IsDangerousChar(name[i]);
      assert IsDangerousChar(u[i]);
    }
    if HasDangerousChar(u) {
      var i :| 0 <= i < |u| && IsDangerousChar(u[i]);
      assert IsDangerousChar(name[i]);
    }
  }

  lemma DangerousExtensionUpper(name: string)
    ensures HasDangerousExtension(UpperString(name)) == HasDangerousExtension(name)
  {
    forall e | e in DangerousExtensions
      ensures EndsWithIgnoreCase(UpperString(name), "." + e) == EndsWithIgnoreCase(name, "." + e)
    {
      EndsWithUpper(name, "." + e);
    }
  }

  lemma EndsWithUpper(name: string, suffix: string)
    ensures EndsWithIgnoreCase(UpperString(name), suffix) == EndsWithIgnoreCase(name, suffix)
  {
    if |name| >= |suffix| {
      var k := |name| - |suffix|;
      assert UpperString(name)[k..] == UpperString(name[k..]);
      UpperTwice(name[k..]);
    }
  }

  lemma UpperTwice(s: string)
    ensures UpperString(UpperString(s)) == UpperString(s)
  {
  }

  lemma UpperBeforeFirstDot(s: string)
    ensures BeforeFirstDot(UpperString(s)) == UpperString(BeforeFirstDot(s))
  {
    var u := UpperString(s);
    var r, ru := BeforeFirstDot(s), BeforeFirstDot(u);
    assert forall i :: 0 <= i < |s| ==> (u[i] == '.' <==> s[i] == '.');
    assert |ru| == |r| by {
      assert |ru| < |u| ==> s[|ru|] == '.';
      assert |r| < |s| ==> u[|r|] == '.';
    }
    assert forall i :: 0 <= i < |r| ==> ru[i] == u[i] == AsciiUpper(r[i]);
  }

  lemma {:induction false} Utf16LengthUpper(s: string)
    ensures Utf16Length(UpperString(s)) == Utf16Length(s)
    decreases |s|
  {
    if s != [] {
      Utf16LengthUpper(s[..|s| - 1]);
      assert UpperString(s)[..|s| - 1] == UpperString(s[..|s| - 1]);
    }
  }

  /** Whatever comes before it, a dangerous extension makes a name unsafe. */
  lemma DangerousExtensionUnsafe(stem: string, e: string)
    requires e in DangerousExtensions
    ensures !IsFileNameSafe(stem + "." + e)
  {
    var name := stem + "." + e;
    assert name[|name| - |"." + e|..] == "." + e;
  }

  // Validation

  /** The three checks `validateFile` makes. */
  predicate Admissible(file: File)
  {
    file.Size() <= MaxFileSize && IsTypeAllowed(file.mimeType) && IsFileNameSafe(file.name)
  }

  /** The errors `validateFile` records, one per failed check, in the order size, type, name. */
  function ValidationErrors(file: File): seq<string>
  {
    (if file.Size() > MaxFileSize then [TooLargeError] else [])
    + (if !IsTypeAllowed(file.mimeType) then [TypeNotAllowedError] else [])
    + (if !IsFileNameSafe(file.name) then [UnsafeNameError] else [])
  }

  /** A file is valid exactly when no error is recorded; each check adds at most one error. */
  lemma ValidationErrorsEmpty(file: File)
    ensures ValidationErrors(file) == [] <==> Admissible(file)
    ensures |ValidationErrors(file)| <= 3
    ensures TooLargeError in ValidationErrors(file) <==> file.Size() > MaxFileSize
    ensures TypeNotAllowedError in ValidationErrors(file) <==> !IsTypeAllowed(file.mimeType)
    ensures UnsafeNameError in ValidationErrors(file) <==> !IsFileNameSafe(file.name)
  {
    assert TooLargeError != TypeNotAllowedError && TooLargeError != UnsafeNameError;
    assert TooLargeError[0] == 'F' && TypeNotAllowedError[0] == 'T' && UnsafeNameError[0] == 'N';
  }

  datatype Validation = Validation(valid: bool, errors: seq<string>)

  /** `validateFile`. */
  method ValidateFile(file: File) returns (result: Validation)
    ensures result.valid == Admissible(file)
    ensures result.errors == ValidationErrors(file)
  {
    result := Validation(true, []);
    if file.Size() > MaxFileSize {
      result := Validation(false, result.errors + [TooLargeError]);
    }
    if !IsTypeAllowed(file.mimeType) {
      result := Validation(false, result.errors + [TypeNotAllowedError]);
    }
    if !IsFileNameSafe(file.name) {
      result := Validation(false, result.errors + [UnsafeNameError]);
    }
  }

  /** The warning `processFiles` shows for a rejected file. */
  function ErrorLine(file: File): string
  {
    file.name + ": " + Join(ValidationErrors(file), ", ")
  }

  /** The files `processFiles` keeps, in input order. */
  function ValidFiles(files: seq<File>): seq<File>
  {
    if files == [] then []
    else ValidFiles(files[..|files| - 1]) + (if Admissible(files[|files| - 1]) then [files[|files| - 1]] else [])
  }

  /** The warnings `processFiles` shows, in input order. */
  function ErrorLines(files: seq<File>): seq<string>
  {
    if files == [] then []
    else ErrorLines(files[..|files| - 1]) + (if Admissible(files[|files| - 1]) then [] else [ErrorLine(files[|files| - 1])])
  }

  /** `processFiles`: the valid files, and one warning per rejected file. */
  method ProcessFiles(files: seq<File>) returns (valid: seq<File>, errors: seq<string>)
    ensures valid == ValidFiles(files) && errors == ErrorLines(files)
  {
    valid, errors := [], [];
    var i := 0;
    while i < |files|
      invariant 0 <= i <= |files|
      invariant valid == ValidFiles(files[..i]) && errors == ErrorLines(files[..i])
    {
      var file := files[i];
      assert files[..i + 1][..i] == files[..i];
      var validation := ValidateFile(file);
      if validation.valid {
        valid := valid + [file];
      } else {
        errors := errors + [file.name + ": " + Join(validation.errors, ", ")];
      }
      i := i + 1;
    }
    assert files[..i] == files;
  }

  /** `processFiles` keeps exactly the valid files: everything kept is valid and every valid
      input is kept, and each rejected file has its warning. */
  lemma {:induction false} ValidFilesExact(files: seq<File>)
    ensures forall f :: f in ValidFiles(files) ==> f in files && Admissible(f)
    ensures forall f :: f in files && Admissible(f) ==> f in ValidFiles(files)
    ensures |ValidFiles(files)| + |ErrorLines(files)| == |files|
    decreases |files|
  {
    if files != [] {
      var init := files[..|files| - 1];
      ValidFilesExact(init);
      assert files == init + [files[|files| - 1]];
    }
  }

  /** Filtering keeps input order: the kept files of a concatenation are the kept files of
      each part, in turn. */
  lemma {:induction false} ValidFilesAppend(a: seq<File>, b: seq<File>)
    ensures ValidFiles(a + b) == ValidFiles(a) + ValidFiles(b)
    decreases |b|
  {
    if b == [] {
      assert a + b == a;
    } else {
      var initB := b[..|b| - 1];
      ValidFilesAppend(a, initB);
      assert (a + b)[..|a + b| - 1] == a + initB;
    }
  }

  /** Every file of the selection is valid. */
  predicate AllAdmissible(files: seq<File>)
  {
    files == [] || (AllAdmissible(files[..|files| - 1]) && Admissible(files[|files| - 1]))
  }

  /** `processFiles` returns its input unchanged exactly when every file in it is valid. */
  lemma {:induction false} ValidFilesIdentity(files: seq<File>)
    ensures ValidFiles(files) == files <==> AllAdmissible(files)
    decreases |files|
  {
    if files != [] {
      var init := files[..|files| - 1];
      ValidFilesIdentity(init);
      ValidFilesShorter(init);
      if Admissible(files[|files| - 1]) {
        assert files == init + [files[|files| - 1]];
      }
    }
  }

  /** Filtering never lengthens the selection. */
  lemma {:induction false} ValidFilesShorter(files: seq<File>)
    ensures |ValidFiles(files)| <= |files|
    decreases |files|
  {
    if files != [] {
      ValidFilesShorter(files[..|files| - 1]);
    }
  }

  /** The result of `limitFiles`, and whether its warning was shown. */
  datatype Limited = Limited(files: seq<File>, warned: bool)

  /** `limitFiles(files, maxFiles)`: over the limit, `files.slice(0, maxFiles)` with a warning
      (a negative limit counts from the end, as `slice` does); otherwise the input itself. */
  function LimitFiles(files: seq<File>, maxFiles: int): (r: Limited)
    ensures r.warned <==> |files| > maxFiles
    ensures 0 <= maxFiles ==> r.files == files[..if |files| <= maxFiles then |files| else maxFiles]
    ensures 0 <= maxFiles ==> |r.files| == if |files| < maxFiles then |files| else maxFiles
    ensures |files| <= maxFiles ==> r.files == files
    ensures r.files <= files
  {
    if |files| > maxFiles then
      var end := if maxFiles >= 0 then maxFiles else if |files| + maxFiles >= 0 then |files| + maxFiles else 0;
      Limited(files[..end], true)
    else Limited(files, false)
  }

  /** The default limit is 10. */
  const DefaultMaxFiles: int := 10

  // The image-preview guard

  /** The guard of `createImagePreview` as written, `!category === 'images'`: the negation binds
      first, giving a boolean, which is never strictly equal to a string. */
  function PreviewRejectsAsWritten(mimeType: string): bool
  {
    var negated := Bool(!Truthy(Str(GetFileCategory(mimeType))));
    negated == Str("images")
  }

  /** The guard as written rejects nothing, not even a PDF. */
  lemma PreviewGuardNeverRejects(mimeType: string)
    ensures !PreviewRejectsAsWritten(mimeType)
    ensures GetFileCategory("application/pdf") == "documents" && !PreviewRejectsAsWritten("application/pdf")
  {
    assert "application/pdf" in AllowedTypes[1].types;
    assert "application/pdf" !in AllowedTypes[0].types;
  }

  /** The guard as evidently intended: reject what is not an image. */
  function PreviewRejects(mimeType: string): bool
  {
    GetFileCategory(mimeType) != "images"
  }

  /** The corrected guard admits exactly the five image types. */
  lemma PreviewRejectsNonImages(mimeType: string)
    ensures !PreviewRejects(mimeType) <==> mimeType in AllowedTypes[0].types
  {
  }
}
