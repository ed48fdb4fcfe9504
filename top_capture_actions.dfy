/**
 * The top of the capture overlay: when the folder button and the
 * capture-mode guidance are shown, what the cancel button does, the
 * folder button pausing and resuming the session, and the gallery's
 * listing of capture folders and of each folder's first image.
 *
 * Directory listings are given as a function from a path to the entries
 * found there, `None` when listing fails.
 */
module TopCaptureActions {
  import opened Wrappers
  import opened Paths
  import opened CaptureActions

  // ---------------------------------------------------------------------
  // Visibility
  // ---------------------------------------------------------------------

  /** The folder button is shown until capturing starts. */
  function ShowsCaptureFolderButton(state: CaptureState): (r: bool)
    ensures r <==> state.Initializing? || state.Ready? || state.Detecting?
  {
    !IsCapturingStarted(state)
  }

  /** The capture-mode guidance is shown in the ready state when asked for, and only while the folder button is. */
  function ShowsCaptureModeGuidance(state: CaptureState, showCaptureModeGuidance: bool): (r: bool)
    ensures r ==> ShowsCaptureFolderButton(state)
    ensures r <==> state.Ready? && showCaptureModeGuidance
  {
    state == Ready && showCaptureModeGuidance
  }

  // ---------------------------------------------------------------------
  // Buttons
  // ---------------------------------------------------------------------

  /** A call the overlay makes on the capture session or the capture folder manager. */
  datatype Effect = CancelSession | PauseSession | ResumeSession | RemoveCaptureFolder

  /** The cancel button's action: cancel the session, then remove the capture folder; each skipped when absent. */
  function CancelActionEffects(hasSession: bool, hasFolderManager: bool): (effects: seq<Effect>)
    ensures CancelSession in effects <==> hasSession
    ensures RemoveCaptureFolder in effects <==> hasFolderManager
    ensures forall i, j :: 0 <= i < j < |effects| ==> effects[i] == CancelSession && effects[j] == RemoveCaptureFolder
    ensures |effects| == (if hasSession then 1 else 0) + (if hasFolderManager then 1 else 0)
  {
    (if hasSession then [CancelSession] else []) + (if hasFolderManager then [RemoveCaptureFolder] else [])
  }

  class CaptureCancelButton {
    const hasSession: bool
    const hasFolderManager: bool
    /** The calls made so far, oldest first. */
    var effects: seq<Effect>

    constructor (session: bool, folderManager: bool)
      ensures hasSession == session && hasFolderManager == folderManager && effects == []
    {
      hasSession := session;
      hasFolderManager := folderManager;
      effects := [];
    }

    method Tapped()
      modifies this`effects
      ensures effects == old(effects) + CancelActionEffects(hasSession, hasFolderManager)
    {
      if hasSession {
        effects := effects + [CancelSession];
      }
      if hasFolderManager {
        effects := effects + [RemoveCaptureFolder];
      }
    }
  }

  /** Pause and resume calls alternate, starting with a pause. */
  predicate Alternates(calls: seq<Effect>)
  {
    forall i :: 0 <= i < |calls| ==> calls[i] == if i % 2 == 0 then PauseSession else ResumeSession
  }

  class CaptureFolderButton {
    const hasSession: bool
    var showCaptureFolders: bool
    /** The pause and resume calls made on the session, oldest first. */
    var sessionCalls: seq<Effect>

    /** The session is paused exactly while the gallery is shown. */
    ghost predicate Valid()
      reads this
    {
      Alternates(sessionCalls)
      && (hasSession ==> (showCaptureFolders <==> |sessionCalls| % 2 == 1))
      && (!hasSession ==> sessionCalls == [])
    }

    constructor (session: bool)
      ensures Valid()
      ensures hasSession == session && !showCaptureFolders && sessionCalls == []
    {
      hasSession := session;
      showCaptureFolders := false;
      sessionCalls := [];
    }

    /** Assigning `showCaptureFolders`; its change handler pauses or resumes the session only when the value changes. */
    method SetShowCaptureFolders(value: bool)
      requires Valid()
      modifies this`showCaptureFolders, this`sessionCalls
      ensures Valid()
      ensures showCaptureFolders == value
      ensures sessionCalls == old(sessionCalls)
                + (if value != old(showCaptureFolders) && hasSession then [if value then PauseSession else ResumeSession] else [])
    {
      var changed := value != showCaptureFolders;
      showCaptureFolders := value;
      if changed && hasSession {
        if showCaptureFolders {
          sessionCalls := sessionCalls + [PauseSession];
        } else {
          sessionCalls := sessionCalls + [ResumeSession];
        }
      }
    }

    /** The folder button opens the gallery. */
    method Tapped()
      requires Valid()
      modifies this`showCaptureFolders, this`sessionCalls
      ensures Valid() && showCaptureFolders
      ensures sessionCalls == old(sessionCalls) + (if !old(showCaptureFolders) && hasSession then [PauseSession] else [])
    {
      SetShowCaptureFolders(true);
    }

    /** The gallery's cancel button closes it. */
    method GalleryCancelTapped()
      requires Valid()
      modifies this`showCaptureFolders, this`sessionCalls
      ensures Valid() && !showCaptureFolders
      ensures sessionCalls == old(sessionCalls) + (if old(showCaptureFolders) && hasSession then [ResumeSession] else [])
    {
      SetShowCaptureFolders(false);
    }
  }

  // ---------------------------------------------------------------------
  // Gallery
  // ---------------------------------------------------------------------

  /**
   * `GalleryView.captureFolderURLs`: the directories of the documents
   * folder, latest path first; `None` without a folder manager or when the
   * listing fails.
   */
  function CaptureFolderUrls(documentsFolder: Option<string>, contentsOfDirectory: string -> Option<seq<DirEntry>>)
    : (r: Option<seq<DirEntry>>)
    ensures documentsFolder.None? ==> r.None?
    ensures documentsFolder.Some? ==> (r.Some? <==> contentsOfDirectory(documentsFolder.value).Some?)
    ensures r.Some? ==> Sorted(r.value, Descending)
    ensures r.Some? ==> (forall e :: multiset(r.value)[e] ==
                           (if e.isDir then multiset(contentsOfDirectory(documentsFolder.value).value)[e] else 0))
  {
    match documentsFolder
    case None => None
    case Some(topLevelFolder) =>
      match contentsOfDirectory(topLevelFolder)
      case None => None
      case Some(entries) => Some(Sort(Directories(entries), Descending))
  }

  /**
   * `ThumbnailView.getFirstImage`: the file with the smallest path in the
   * folder's images folder; `None` when there is no file or the listing fails.
   */
  function GetFirstImage(captureFolder: string, imagesFolderName: string, contentsOfDirectory: string -> Option<seq<DirEntry>>)
    : (r: Option<DirEntry>)
    ensures var listing := contentsOfDirectory(AppendingPathComponent(captureFolder, imagesFolderName));
            r.None? <==> listing.None? || forall e :: e in listing.value ==> e.isDir
    ensures var listing := contentsOfDirectory(AppendingPathComponent(captureFolder, imagesFolderName));
            r.Some? ==> listing.Some? && r.value in listing.value && !r.value.isDir
                        && forall e :: e in listing.value && !e.isDir ==> !StrLt(e.path, r.value.path)
  {
    var imageFolder := AppendingPathComponent(captureFolder, imagesFolderName);
    match contentsOfDirectory(imageFolder)
    case None => None
    case Some(entries) =>
      var images := Sort(Files(entries), Ascending);
      FirstIsSmallest(entries, images);
      if images == [] then None else Some(images[0])
  }

  /** The sorted files are exactly the entries that are not directories. */
  lemma SortedFilesMembers(entries: seq<DirEntry>, images: seq<DirEntry>, e: DirEntry)
    requires images == Sort(Files(entries), Ascending)
    ensures e in images <==> e in entries && !e.isDir
  {
    var files := Files(entries);
    assert multiset(images)[e] == multiset(files)[e];
    assert multiset(files)[e] == if e.isDir then 0 else multiset(entries)[e];
    assert e in images <==> multiset(images)[e] > 0;
    assert e in entries <==> multiset(entries)[e] > 0;
  }

  lemma FirstIsSmallest(entries: seq<DirEntry>, images: seq<DirEntry>)
    requires images == Sort(Files(entries), Ascending)
    ensures images == [] <==> forall e :: e in entries ==> e.isDir
    ensures images != [] ==> images[0] in entries && !images[0].isDir
                             && forall e :: e in entries && !e.isDir ==> !StrLt(e.path, images[0].path)
  {
    if images != [] {
      SortedFilesMembers(entries, images, images[0]);
      forall e | e in entries && !e.isDir ensures !StrLt(e.path, images[0].path) {
        FirstIsNotAfter(entries, images, e);
      }
    } else {
      forall e | e in entries ensures e.isDir {
        SortedFilesMembers(entries, images, e);
      }
    }
  }

  lemma FirstIsNotAfter(entries: seq<DirEntry>, images: seq<DirEntry>, e: DirEntry)
    requires images == Sort(Files(entries), Ascending)
    requires e in entries && !e.isDir
    ensures images != [] && !StrLt(e.path, images[0].path)
  {
    SortedFilesMembers(entries, images, e);
    var j :| 0 <= j < |images| && images[j] == e;
    if j == 0 {
      StrLtIrreflexive(e.path);
    } else {
      assert Sorted(images, Ascending);
      assert !Before(images[j], images[0], Ascending);
    }
  }
}
