/**
 * FtpClient's navigation state: a stack of frames, each frame a stack of path segments.
 * NavigateTo starts a new frame, NavigateDown descends within the top frame, and
 * NavigateBack undoes the last step. The network operations are not modelled.
 */
module FtpNavigation {
  import opened Wrappers
  import opened Text

  /**
   * Stack<Stack<string>>: the last frame is the top of the stack, and each frame lists
   * its segments oldest first (the order CurrentPath prints them in).
   */
  type Frames = seq<seq<string>>

  /** The invariant the three navigation operations keep: no frame is empty. */
  predicate NoEmptyFrame(paths: Frames) {
    forall i :: 0 <= i < |paths| ==> |paths[i]| > 0
  }

  /** CurrentPath: "/" followed by the top frame's segments joined by "/". */
  function RenderPath(paths: Frames): (r: string)
    ensures |r| > 0 && r[0] == '/'
    ensures paths == [] ==> r == "/"
  {
    "/" + (if |paths| > 0 then Join("/", paths[|paths| - 1]) else "")
  }

  const BlankValue: Error := Argument("Value cannot be null or empty.")

  /** The segment a navigation call pushes: blank (or null) is rejected, leading '/' are dropped. */
  function Segment(path: Option<string>): (r: Result<string>)
    ensures r.Err? <==> IsNullOrWhiteSpace(path)
    ensures r.Err? ==> r.error == BlankValue
    ensures r.Ok? ==> (r.value == [] || r.value[0] != '/') && exists k :: 0 <= k <= |path.value| && path.value == Replicate('/', k) + r.value
  {
    if IsNullOrWhiteSpace(path) then Err(BlankValue) else Ok(TrimStartChar(path.value, '/'))
  }

  /** The state after NavigateTo: a new frame holding only seg. */
  function PushFrame(paths: Frames, seg: string): (r: Frames)
    ensures NoEmptyFrame(paths) ==> NoEmptyFrame(r)
  {
    paths + [[seg]]
  }

  /** The state after NavigateDown with at least one frame: seg goes on top of the top frame. */
  function PushDown(paths: Frames, seg: string): (r: Frames)
    requires |paths| > 0
    ensures NoEmptyFrame(paths) ==> NoEmptyFrame(r)
  {
    paths[..|paths| - 1] + [paths[|paths| - 1] + [seg]]
  }

  /** The state after NavigateBack. */
  function Back(paths: Frames): (r: Frames)
    ensures NoEmptyFrame(paths) ==> NoEmptyFrame(r)
  {
    if |paths| == 0 then paths
    else
      var top := paths[|paths| - 1];
      if |top| > 1 then paths[..|paths| - 1] + [top[..|top| - 1]]
      else paths[..|paths| - 1]
  }

  /** NavigateBack right after a NavigateTo restores the earlier stack. */
  lemma BackUndoesPushFrame(paths: Frames, seg: string)
    ensures Back(PushFrame(paths, seg)) == paths
  {
    assert (paths + [[seg]])[..|paths|] == paths;
  }

  /** NavigateBack right after a NavigateDown onto a frame restores the earlier stack. */
  lemma BackUndoesPushDown(paths: Frames, seg: string)
    requires |paths| > 0 && NoEmptyFrame(paths)
    ensures Back(PushDown(paths, seg)) == paths
  {
    var n := |paths|;
    var top := paths[n - 1];
    var after := PushDown(paths, seg);
    assert after[n - 1] == top + [seg];
    assert (top + [seg])[..|top|] == top;
    assert after[..n - 1] == paths[..n - 1];
    assert paths == paths[..n - 1] + [top];
  }

  lemma {:induction false} JoinAppend(sep: string, parts: seq<string>, last: string)
    requires |parts| > 0
    ensures Join(sep, parts + [last]) == Join(sep, parts) + sep + last
  {
    if |parts| == 1 {
      assert (parts + [last])[1..] == [last];
    } else {
      assert (parts + [last])[1..] == parts[1..] + [last];
      JoinAppend(sep, parts[1..], last);
    }
  }

  /** Descending within a frame extends the current path by "/" and the segment. */
  lemma PushDownExtendsPath(paths: Frames, seg: string)
    requires |paths| > 0 && NoEmptyFrame(paths)
    ensures RenderPath(PushDown(paths, seg)) == RenderPath(paths) + "/" + seg
  {
    var n := |paths|;
    assert PushDown(paths, seg)[n - 1] == paths[n - 1] + [seg];
    JoinAppend("/", paths[n - 1], seg);
  }

  /** A new frame shows only its own segment. */
  lemma PushFrameShowsSegment(paths: Frames, seg: string)
    ensures RenderPath(PushFrame(paths, seg)) == "/" + seg
  {
    assert PushFrame(paths, seg)[|paths|] == [seg];
  }

  class FtpClient {
    /** _paths. */
    var paths: Frames

    ghost predicate Valid()
      reads this
    {
      NoEmptyFrame(paths)
    }

    constructor ()
      ensures Valid() && paths == []
    {
      paths := [];
    }

    function CurrentPath(): (r: string)
      reads this
      ensures |r| > 0 && r[0] == '/'
    {
      RenderPath(paths)
    }

    /** NavigateTo(path): pushes a frame holding the segment and returns the new CurrentPath. */
    method NavigateTo(path: Option<string>) returns (r: Result<string>)
      requires Valid()
      modifies this
      ensures Valid()
      ensures Segment(path).Err? ==> r == Err(BlankValue) && paths == old(paths)
      ensures Segment(path).Ok? ==>
        (paths == PushFrame(old(paths), Segment(path).value)
         && r == Ok("/" + Segment(path).value) && r.value == CurrentPath())
    {
      if IsNullOrWhiteSpace(path) {
        return Err(BlankValue);
      }
      var seg := TrimStartChar(path.value, '/');
      paths := paths + [[seg]];
      PushFrameShowsSegment(old(paths), seg);
      r := Ok(CurrentPath());
    }

    /** NavigateBack: pops the top segment, or the whole frame when it holds only one; no-op with no frames. */
    method NavigateBack() returns (r: string)
      requires Valid()
      modifies this
      ensures Valid() && paths == Back(old(paths)) && r == CurrentPath()
    {
      if |paths| > 0 {
        var current := paths[|paths| - 1];
        if |current| > 1 {
          paths := paths[..|paths| - 1] + [current[..|current| - 1]];
        } else {
          paths := paths[..|paths| - 1];
        }
      }
      r := CurrentPath();
    }

    /**
     * NavigateDown(name): with frames, the trimmed segment goes on the top frame; with none,
     * the trimmed segment is handed to NavigateTo, which checks it for blankness again.
     */
    method NavigateDown(name: Option<string>) returns (r: Result<string>)
      requires Valid()
      modifies this
      ensures Valid()
      ensures Segment(name).Err? ==> r == Err(BlankValue) && paths == old(paths)
      ensures Segment(name).Ok? && |old(paths)| > 0 ==>
        (paths == PushDown(old(paths), Segment(name).value)
         && r == Ok(old(CurrentPath()) + "/" + Segment(name).value) && r.value == CurrentPath())
      ensures Segment(name).Ok? && old(paths) == [] ==>
        (Segment(Some(Segment(name).value)).Err? ==> r == Err(BlankValue) && paths == old(paths))
        && (Segment(Some(Segment(name).value)).Ok? ==>
              paths == PushFrame(old(paths), Segment(name).value) && r == Ok("/" + Segment(name).value))
    {
      if IsNullOrWhiteSpace(name) {
        return Err(BlankValue);
      }
      var seg := TrimStartChar(name.value, '/');
      if |paths| == 0 {
        r := NavigateTo(Some(seg));
        if !IsNullOrWhiteSpace(Some(seg)) {
          TrimStartCharIdempotent(seg);
        }
        return;
      }
      PushDownExtendsPath(paths, seg);
      paths := PushDown(paths, seg);
      r := Ok(CurrentPath());
    }

    /**
     * Enter(name) and the dispose of what it returns, around a block that only reads the
     * path: the block sees the path with `name` appended, and afterwards the stack is
     * exactly what it was. When NavigateDown throws there is nothing to dispose.
     */
    method InDirectory(name: Option<string>) returns (r: Result<string>)
      requires Valid()
      modifies this
      ensures Valid() && paths == old(paths)
      ensures Segment(name).Err? ==> r == Err(BlankValue)
      ensures Segment(name).Ok? && |old(paths)| > 0 ==> r == Ok(old(CurrentPath()) + "/" + Segment(name).value)
      ensures Segment(name).Ok? && old(paths) == [] && Segment(Some(Segment(name).value)).Err? ==>
        r == Err(BlankValue)
      ensures Segment(name).Ok? && old(paths) == [] && Segment(Some(Segment(name).value)).Ok? ==>
        r == Ok("/" + Segment(name).value)
    {
      r := NavigateDown(name);
      if r.Err? {
        return;
      }
      var _ := NavigateBack();
      if |old(paths)| > 0 {
        BackUndoesPushDown(old(paths), Segment(name).value);
      } else {
        BackUndoesPushFrame(old(paths), Segment(name).value);
      }
    }
  }

  lemma TrimStartCharIdempotent(s: string)
    requires s == [] || s[0] != '/'
    ensures TrimStartChar(s, '/') == s
  {
  }

  /** "/" is not blank, so NavigateTo accepts it; the frame it pushes holds "", and the path stays "/". */
  lemma NavigateToSlashPushesEmptySegment()
    ensures Segment(Some("/")) == Ok("")
    ensures RenderPath(PushFrame([], "")) == "/" && |PushFrame([], "")| == 1
  {
    assert !IsWhiteSpace('/');
    assert TrimStartChar("/", '/') == TrimStartChar("", '/');
  }

  /** With no frames NavigateDown("/") throws: the trimmed "" is blank when NavigateTo checks it again. */
  lemma NavigateDownSlashFromRootThrows()
    ensures Segment(Some("/")).Ok? && Segment(Some(Segment(Some("/")).value)).Err?
  {
    NavigateToSlashPushesEmptySegment();
  }
}
