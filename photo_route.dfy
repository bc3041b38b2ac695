/**
 * The artist photo upload (`POST` in src/app/api/admin/artists/photo/route.ts):
 * the request checks, the file-name slug derived from the artist's name, the
 * extension chosen from the MIME type and the resulting storage path.
 */
module PhotoRoute {
  import opened Wrappers

  // ---------------------------------------------------------------------------
  // Validation
  // ---------------------------------------------------------------------------

  /** The uploaded file as the route sees it: its MIME type and size in bytes. */
  datatype UploadedFile = UploadedFile(mimeType: string, size: int)

  const ALLOWED_TYPES: seq<string> := ["image/jpeg", "image/png", "image/webp"]

  /** 5 MiB. */
  const MAX_FILE_SIZE: int := 5 * 1024 * 1024

  datatype UploadError = Unauthorized | MissingField | UnsupportedType | TooLarge | ArtistNotFound

  function StatusCode(e: UploadError): (code: nat)
    ensures code == 401 <==> e.Unauthorized?
    ensures code == 404 <==> e.ArtistNotFound?
    ensures code == 400 <==> e.MissingField? || e.UnsupportedType? || e.TooLarge?
  {
    match e
    case Unauthorized => 401
    case ArtistNotFound => 404
    case _ => 400
  }

  /**
   * The checks before the artist lookup, in the route's order: a missing file
   * or a missing (or empty) artist id, a type outside the whitelist, a size
   * above 5 MiB.
   */
  function ValidateUpload(authenticated: bool, file: Option<UploadedFile>, artistId: Option<string>): Option<UploadError>
  {
    if !authenticated then Some(Unauthorized)
    else if file.None? || artistId.None? || artistId.value == "" then Some(MissingField)
    else if file.value.mimeType !in ALLOWED_TYPES then Some(UnsupportedType)
    else if file.value.size > MAX_FILE_SIZE then Some(TooLarge)
    else None
  }

  /** What the checks accept, with the size boundary: exactly 5 MiB passes, one byte more does not. */
  lemma ValidationCases(file: Option<UploadedFile>, artistId: Option<string>)
    ensures file.None? || artistId.None? ==> ValidateUpload(true, file, artistId) == Some(MissingField)
    ensures ValidateUpload(true, file, artistId).None? <==>
              file.Some? && artistId.Some? && artistId.value != ""
              && file.value.mimeType in {"image/jpeg", "image/png", "image/webp"}
              && file.value.size <= 5242880
    ensures file.Some? && artistId.Some? && artistId.value != "" && file.value.mimeType !in ALLOWED_TYPES ==>
              ValidateUpload(true, file, artistId) == Some(UnsupportedType)
    ensures ValidateUpload(true, Some(UploadedFile("image/png", 5242880)), Some("a")).None?
    ensures ValidateUpload(true, Some(UploadedFile("image/png", 5242881)), Some("a")) == Some(TooLarge)
  {
  }

  // ---------------------------------------------------------------------------
  // The slug
  // ---------------------------------------------------------------------------

  /** ASCII lowering (`toLowerCase` restricted to A-Z). */
  function Lower(c: char): (d: char)
    ensures 'A' <= c <= 'Z' ==> d as int == c as int + 32
    ensures !('A' <= c <= 'Z') ==> d == c
  {
    if 'A' <= c <= 'Z' then (c as int + 32) as char else c
  }

  function LowerAll(s: string): (t: string)
    ensures |t| == |s| && forall i :: 0 <= i < |s| ==> t[i] == Lower(s[i])
  {
    seq(|s|, i requires 0 <= i < |s| => Lower(s[i]))
  }

  /** The characters the slug keeps: `[a-z0-9]`. */
  predicate IsSlugChar(c: char)
  {
    'a' <= c <= 'z' || '0' <= c <= '9'
  }

  /**
   * `replace(/[^a-z0-9]+/g, '-')`: every maximal run of other characters
   * becomes one '-'. `inRun` says the previous character already started a run.
   */
  function CollapseRuns(s: string, inRun: bool): (t: string)
    decreases |s|
  {
    if s == [] then []
    else if IsSlugChar(s[0]) then [s[0]] + CollapseRuns(s[1..], false)
    else (if inRun then [] else ['-']) + CollapseRuns(s[1..], true)
  }

  /** `replace(/(^-|-$)/g, '')`: drop one leading and one trailing '-'. */
  function TrimDashes(t: string): (u: string)
    ensures |u| <= |t|
  {
    var front := if |t| > 0 && t[0] == '-' then t[1..] else t;
    if |front| > 0 && front[|front| - 1] == '-' then front[..|front| - 1] else front
  }

  /** The storage slug of an artist name. */
  function Slug(name: string): string
  {
    TrimDashes(CollapseRuns(LowerAll(name), false))
  }

  /** The slug alphabet is `[a-z0-9-]`. */
  predicate SlugAlphabet(t: string)
  {
    forall i :: 0 <= i < |t| ==> IsSlugChar(t[i]) || t[i] == '-'
  }

  /** No two dashes in a row. */
  predicate NoDoubleDash(t: string)
  {
    forall i :: 0 <= i < |t| - 1 ==> !(t[i] == '-' && t[i + 1] == '-')
  }

  /** The kept characters of a string, in order. */
  function Kept(s: string): (k: string)
    ensures forall i :: 0 <= i < |k| ==> IsSlugChar(k[i])
  {
    if s == [] then [] else (if IsSlugChar(s[0]) then [s[0]] else []) + Kept(s[1..])
  }

  lemma {:induction false} KeptAppend(a: string, b: string)
    ensures Kept(a + b) == Kept(a) + Kept(b)
  {
    if a != [] {
      assert (a + b)[1..] == a[1..] + b;
      KeptAppend(a[1..], b);
    } else {
      assert a + b == b;
    }
  }

  /** Collapsing keeps the kept characters, in order. */
  lemma {:induction false} CollapseRunsKeeps(s: string, inRun: bool)
    ensures Kept(CollapseRuns(s, inRun)) == Kept(s)
    decreases |s|
  {
    if s != [] {
      var rest := CollapseRuns(s[1..], !IsSlugChar(s[0]));
      CollapseRunsKeeps(s[1..], !IsSlugChar(s[0]));
      var head: string := if IsSlugChar(s[0]) then [s[0]] else if inRun then [] else ['-'];
      assert CollapseRuns(s, inRun) == head + rest;
      KeptAppend(head, rest);
    }
  }

  /**
   * Collapsing uses only the slug alphabet, and starts with a dash only when
   * no run was already open and the input starts with a dropped character.
   */
  lemma {:induction false} CollapseRunsAlphabet(s: string, inRun: bool)
    ensures var t := CollapseRuns(s, inRun);
            SlugAlphabet(t) && (|t| > 0 && t[0] == '-' ==> !inRun && !IsSlugChar(s[0]))
    decreases |s|
  {
    if s != [] {
      var rest := CollapseRuns(s[1..], !IsSlugChar(s[0]));
      CollapseRunsAlphabet(s[1..], !IsSlugChar(s[0]));
      var head: string := if IsSlugChar(s[0]) then [s[0]] else if inRun then [] else ['-'];
      var t := CollapseRuns(s, inRun);
      assert t == head + rest;
      forall i | 0 <= i < |t|
        ensures IsSlugChar(t[i]) || t[i] == '-'
      {
        if i >= |head| {
          assert t[i] == rest[i - |head|];
        }
      }
    }
  }

  /** Collapsing never writes two dashes in a row. */
  lemma {:induction false} CollapseRunsNoDoubleDash(s: string, inRun: bool)
    ensures NoDoubleDash(CollapseRuns(s, inRun))
    decreases |s|
  {
    if s != [] {
      var rest := CollapseRuns(s[1..], !IsSlugChar(s[0]));
      CollapseRunsNoDoubleDash(s[1..], !IsSlugChar(s[0]));
      var head: string := if IsSlugChar(s[0]) then [s[0]] else if inRun then [] else ['-'];
      var t := CollapseRuns(s, inRun);
      assert t == head + rest;
      if head == ['-'] {
        CollapseRunsAlphabet(s[1..], true);
      }
      forall i | 0 <= i < |t| - 1
        ensures !(t[i] == '-' && t[i + 1] == '-')
      {
        if i >= |head| {
          assert t[i] == rest[i - |head|] && t[i + 1] == rest[i + 1 - |head|];
        } else {
          assert t[i + 1] == rest[0];
        }
      }
    }
  }

  /** A string over `[a-z0-9-]` with no kept character is all dashes. */
  lemma {:induction false} NothingKeptIsAllDashes(t: string)
    requires SlugAlphabet(t) && Kept(t) == []
    ensures forall i :: 0 <= i < |t| ==> t[i] == '-'
  {
    if t != [] {
      NothingKeptIsAllDashes(t[1..]);
      assert forall i :: 1 <= i < |t| ==> t[i] == t[1..][i - 1];
    }
  }

  /** Trimming drops only dashes. */
  lemma TrimKeeps(t: string)
    ensures Kept(TrimDashes(t)) == Kept(t)
  {
    var front := if |t| > 0 && t[0] == '-' then t[1..] else t;
    if |t| > 0 && t[0] == '-' {
      assert t == [t[0]] + front;
      KeptAppend([t[0]], front);
    }
    if |front| > 0 && front[|front| - 1] == '-' {
      var body := front[..|front| - 1];
      assert front == body + [front[|front| - 1]];
      KeptAppend(body, [front[|front| - 1]]);
    }
  }

  /**
   * The slug is made of `[a-z0-9-]`, keeps the name's lowered letters and
   * digits in order, has no "--", and neither starts nor ends with '-'.
   */
  lemma SlugShape(name: string)
    ensures var slug := Slug(name);
            SlugAlphabet(slug) && NoDoubleDash(slug)
            && Kept(slug) == Kept(LowerAll(name))
            && (|slug| > 0 ==> slug[0] != '-' && slug[|slug| - 1] != '-')
  {
    var lowered := LowerAll(name);
    var t := CollapseRuns(lowered, false);
    CollapseRunsKeeps(lowered, false);
    CollapseRunsAlphabet(lowered, false);
    CollapseRunsNoDoubleDash(lowered, false);
    TrimKeeps(t);
    var front := if |t| > 0 && t[0] == '-' then t[1..] else t;
    assert NoDoubleDash(front) && SlugAlphabet(front);
    if |t| > 1 && t[0] == '-' {
      assert front[0] == t[1] && t[1] != '-';
    }
    var slug := Slug(name);
    if |front| > 0 && front[|front| - 1] == '-' && |front| > 1 {
      assert slug[|slug| - 1] == front[|front| - 2] != '-';
    }
  }

  /** The slug is empty exactly when the lowered name has no letter or digit. */
  lemma SlugEmptyIffNothingKept(name: string)
    ensures Slug(name) == [] <==> Kept(LowerAll(name)) == []
  {
    var slug := Slug(name);
    SlugShape(name);
    if Kept(LowerAll(name)) == [] && slug != [] {
      NothingKeptIsAllDashes(slug);
    }
  }

  // ---------------------------------------------------------------------------
  // Extension and storage path
  // ---------------------------------------------------------------------------

  /** The file extension: png and webp by type, jpg for everything else. */
  function Extension(mimeType: string): (ext: string)
    ensures ext == "png" <==> mimeType == "image/png"
    ensures ext == "webp" <==> mimeType == "image/webp"
    ensures ext == "jpg" <==> mimeType != "image/png" && mimeType != "image/webp"
  {
    if mimeType == "image/png" then "png" else if mimeType == "image/webp" then "webp" else "jpg"
  }

  /**
   * `${slug}.${ext}`. The slug has no '.', so the first '.' of the path
   * separates the slug from the extension: the path alone determines both.
   */
  function StoragePath(name: string, mimeType: string): (path: string)
    ensures var slug := Slug(name);
            |path| == |slug| + 1 + |Extension(mimeType)|
            && path[..|slug|] == slug && path[|slug|] == '.' && path[|slug| + 1..] == Extension(mimeType)
    ensures forall i :: 0 <= i < |Slug(name)| ==> path[i] != '.'
  {
    SlugShape(name);
    Slug(name) + "." + Extension(mimeType)
  }

  /** Two equal storage paths come from the same slug and the same extension. */
  lemma StoragePathDeterminesParts(name1: string, mimeType1: string, name2: string, mimeType2: string)
    requires StoragePath(name1, mimeType1) == StoragePath(name2, mimeType2)
    ensures Slug(name1) == Slug(name2) && Extension(mimeType1) == Extension(mimeType2)
  {
    var path := StoragePath(name1, mimeType1);
    var s1, s2 := Slug(name1), Slug(name2);
    assert s1 == path[..|s1|] == s2;
    assert Extension(mimeType1) == path[|s1| + 1..] == Extension(mimeType2);
  }

  /**
   * The route up to the upload: the checks, then the artist lookup (the
   * `artists` table as a map from id to name), then the storage path.
   */
  function UploadPath(authenticated: bool, file: Option<UploadedFile>, artistId: Option<string>,
                      artists: map<string, string>): (r: Result<string, UploadError>)
    ensures r.Ok? <==> ValidateUpload(authenticated, file, artistId).None? && artistId.value in artists
    ensures r.Ok? ==> r.value == StoragePath(artists[artistId.value], file.value.mimeType)
    ensures ValidateUpload(authenticated, file, artistId).Some? ==> r == Err(ValidateUpload(authenticated, file, artistId).value)
    ensures ValidateUpload(authenticated, file, artistId).None? && artistId.value !in artists ==> r == Err(ArtistNotFound)
  {
    match ValidateUpload(authenticated, file, artistId)
    case Some(e) => Err(e)
    case None =>
      if artistId.value !in artists then Err(ArtistNotFound)
      else Ok(StoragePath(artists[artistId.value], file.value.mimeType))
  }

  /**
   * An accepted upload's path is the slug, a dot and the extension; a JPEG
   * gets "jpg", so every accepted path ends in one of the three extensions.
   */
  lemma AcceptedPathExtension(authenticated: bool, file: Option<UploadedFile>, artistId: Option<string>,
                              artists: map<string, string>)
    requires UploadPath(authenticated, file, artistId, artists).Ok?
    ensures var path := UploadPath(authenticated, file, artistId, artists).value;
            var slug := Slug(artists[artistId.value]);
            path[..|slug|] == slug && path[|slug|] == '.'
            && path[|slug| + 1..] == (if file.value.mimeType == "image/jpeg" then "jpg"
                                      else if file.value.mimeType == "image/png" then "png" else "webp")
  {
  }
}
