/**
  backend/session_manager.py: `SessionManager`, the saved launch sessions. Sessions are kept
  in memory in creation order and written out after every change. When a session is created,
  the geometry of the device's mirror window is read with `xdotool`, if that tool is present.
 */
module SessionManager {
  import opened Wrappers
  import opened Strings
  import opened Numbers
  import opened Patterns

  /** `{"x": x, "y": y, "width": w, "height": h}`. */
  datatype Geometry = Geometry(x: int, y: int, width: int, height: int)

  /** One session record: the dictionary built by `create_session` (`type` is `kind` here). */
  datatype Session = Session(
    id: string,
    name: string,
    serial: string,
    kind: string,
    packageName: Option<string>,
    launchMode: string,
    profile: string,
    screenOff: bool,
    audio: bool,
    geometry: Option<Geometry>)

  /** The defaults of `create_session`'s optional parameters. */
  const DefaultLaunchMode := "Tablet"
  const DefaultProfile := "Default"

  /** What the storage file holds when the manager starts: nothing, something unreadable, or a session list. */
  datatype Storage = Missing | Unreadable | Stored(sessions: seq<Session>)

  /** `load_sessions()`: the stored list, and an empty list when the file is missing or cannot be read. */
  function LoadedSessions(storage: Storage): (r: seq<Session>)
    ensures storage.Stored? ==> r == storage.sessions
    ensures !storage.Stored? ==> r == []
  {
    match storage
    case Stored(s) => s
    case _ => []
  }

  // ----- The xdotool queries -----

  /** How one `subprocess.run(cmd, capture_output=True, text=True)` ended: its status and output. */
  datatype ProcResult = ProcResult(returncode: int, stdout: string)

  /** `xdotool` as the manager sees it: how it answers each argument vector; `None` is an exception. */
  datatype XdoTool = XdoTool(run: seq<string> -> Option<ProcResult>)

  function WindowName(serial: string): string {
    "UMC - " + serial
  }

  function SearchCommand(serial: string): seq<string> {
    ["xdotool", "search", "--name", WindowName(serial)]
  }

  function GeometryCommand(wid: string): seq<string> {
    ["xdotool", "getwindowgeometry", wid]
  }

  /** The window id taken from a search: the last line of the stripped output. */
  function WindowId(stdout: string): string {
    Last(Split(Strip(stdout), "\n"))
  }

  /**
    The geometry in `getwindowgeometry` output. The position is the first `Position: X,Y`
    match, 0,0 without one; the size is the first `Geometry: WxH` match. A geometry is given
    only when both sides of the size are positive.
   */
  function ParseGeometry(output: string): (r: Option<Geometry>)
    ensures r.Some? ==> r.value.width > 0 && r.value.height > 0
    ensures r.Some? <==> match PairValues("Geometry:", 'x', output)
                         case None => false
                         case Some(wh) => wh.0 > 0 && wh.1 > 0
    ensures r.Some? ==> (r.value.width, r.value.height) == PairValues("Geometry:", 'x', output).value
    ensures r.Some? ==> (r.value.x, r.value.y) == PairValues("Position:", ',', output).GetOr((0, 0))
  {
    var pos := PairValues("Position:", ',', output).GetOr((0, 0));
    var size := PairValues("Geometry:", 'x', output).GetOr((0, 0));
    if size.0 > 0 && size.1 > 0 then Some(Geometry(pos.0, pos.1, size.0, size.1)) else None
  }

  /**
    `_capture_geometry(serial)`: `None` without `xdotool`, when the search raises, exits with a
    non-zero status or prints nothing but whitespace, and when the geometry query raises;
    otherwise the geometry parsed from the query about the last window the search found.
   */
  function CaptureGeometry(xdotool: Option<XdoTool>, serial: string): (r: Option<Geometry>)
    ensures xdotool.None? ==> r.None?
    ensures xdotool.Some? ==>
              match xdotool.value.run(SearchCommand(serial))
              case None => r.None?
              case Some(found) =>
                if found.returncode != 0 || IsBlank(found.stdout) then r.None?
                else
                  match xdotool.value.run(GeometryCommand(WindowId(found.stdout)))
                  case None => r.None?
                  case Some(geo) => r == ParseGeometry(geo.stdout)
  {
    match xdotool
    case None => None
    case Some(tool) =>
      match tool.run(SearchCommand(serial))
      case None => None
      case Some(found) =>
        if found.returncode != 0 || Strip(found.stdout) == [] then None
        else
          match tool.run(GeometryCommand(WindowId(found.stdout)))
          case None => None
          case Some(geo) => ParseGeometry(geo.stdout)
  }

  // ----- The session list -----

  /** The sessions whose id differs from `id`, in their original order. */
  function WithoutId(sessions: seq<Session>, id: string): (r: seq<Session>)
    ensures |r| <= |sessions|
  {
    if sessions == [] then []
    else (if sessions[0].id == id then [] else [sessions[0]]) + WithoutId(sessions[1..], id)
  }

  /** The first session with the given id. */
  function FirstWithId(sessions: seq<Session>, id: string): (r: Option<Session>)
    ensures r.None? <==> forall k :: 0 <= k < |sessions| ==> sessions[k].id != id
    ensures r.Some? ==> exists k :: && 0 <= k < |sessions| && sessions[k] == r.value
                                   && r.value.id == id
                                   && forall j :: 0 <= j < k ==> sessions[j].id != id
  {
    if sessions == [] then None
    else if sessions[0].id == id then Some(sessions[0])
    else
      var rest := FirstWithId(sessions[1..], id);
      assert forall k :: 1 <= k < |sessions| ==> sessions[k] == sessions[1..][k - 1];
      if rest.Some? then
        var k :| 0 <= k < |sessions[1..]| && sessions[1..][k] == rest.value && rest.value.id == id
                 && forall j :: 0 <= j < k ==> sessions[1..][j].id != id;
        assert sessions[k + 1] == rest.value;
        rest
      else rest
  }

  class SessionManager {
    /** `self.sessions`. */
    var sessions: seq<Session>
    /** The list the last `save_sessions` wrote, `None` before the first save. */
    ghost var saved: Option<seq<Session>>
    /** What `shutil.which("xdotool")` finds, and how the tool answers. */
    const xdotool: Option<XdoTool>

    /** `SessionManager(storage_path)`: loads the stored list; nothing is written yet. */
    constructor (storage: Storage, xdotool: Option<XdoTool>)
      ensures sessions == LoadedSessions(storage) && saved.None?
      ensures this.xdotool == xdotool
    {
      sessions := LoadedSessions(storage);
      saved := None;
      this.xdotool := xdotool;
    }

    /** `save_sessions()`: writes the whole current list. */
    method SaveSessions()
      modifies this
      ensures sessions == old(sessions) && saved == Some(sessions)
    {
      saved := Some(sessions);
    }

    /**
      `create_session(...)`: appends one record with the fresh id `id` (the `uuid4` of the
      source), the given fields and the captured geometry, saves, and returns the id.
     */
    method CreateSession(id: string, name: string, serial: string, kind: string, packageName: Option<string>,
                         launchMode: string, profile: string, screenOff: bool, audio: bool)
      returns (sessionId: string)
      modifies this
      ensures sessions == old(sessions) + [Session(id, name, serial, kind, packageName, launchMode, profile,
                                                   screenOff, audio, CaptureGeometry(xdotool, serial))]
      ensures saved == Some(sessions)
      ensures sessionId == id
    {
      var geometry := CaptureGeometry(xdotool, serial);
      var session := Session(id, name, serial, kind, packageName, launchMode, profile, screenOff, audio, geometry);
      sessions := sessions + [session];
      SaveSessions();
      sessionId := session.id;
    }

    /**
      `create_session(name, serial, type)` with the optional parameters left out: no package,
      mode "Tablet", profile "Default", the screen left on and no audio.
     */
    method CreateSessionDefault(id: string, name: string, serial: string, kind: string)
      returns (sessionId: string)
      modifies this
      ensures sessions == old(sessions) + [Session(id, name, serial, kind, None, "Tablet", "Default",
                                                   false, false, CaptureGeometry(xdotool, serial))]
      ensures saved == Some(sessions)
      ensures sessionId == id
    {
      sessionId := CreateSession(id, name, serial, kind, None, DefaultLaunchMode, DefaultProfile, false, false);
    }

    /** `delete_session(id)`: keeps the sessions with other ids, in order, then saves. */
    method DeleteSession(id: string)
      modifies this
      ensures sessions == WithoutId(old(sessions), id)
      ensures saved == Some(sessions)
    {
      sessions := WithoutId(sessions, id);
      SaveSessions();
    }

    /** `get_sessions()`: the current list. */
    function GetSessions(): (r: seq<Session>)
      reads this
      ensures r == sessions
    {
      sessions
    }

    /** `get_session(id)`: the first session with that id, searched in order. */
    method GetSession(id: string) returns (r: Option<Session>)
      ensures r == FirstWithId(sessions, id)
    {
      var i := 0;
      while i < |sessions|
        invariant 0 <= i <= |sessions|
        invariant FirstWithId(sessions, id) == FirstWithId(sessions[i..], id)
      {
        FirstStep(sessions, i, id);
        if sessions[i].id == id {
          return Some(sessions[i]);
        }
        i := i + 1;
      }
      return None;
    }
  }

  lemma FirstStep(sessions: seq<Session>, i: nat, id: string)
    requires i < |sessions|
    ensures FirstWithId(sessions[i..], id)
            == if sessions[i].id == id then Some(sessions[i]) else FirstWithId(sessions[i + 1..], id)
  {
    assert sessions[i..][1..] == sessions[i + 1..];
  }

  // ----- Properties of the session list -----

  /** A session survives a delete exactly when it was there and has another id. */
  lemma {:induction false} WithoutIdMembers(sessions: seq<Session>, id: string, s: Session)
    ensures s in WithoutId(sessions, id) <==> s in sessions && s.id != id
  {
    if sessions != [] {
      WithoutIdMembers(sessions[1..], id, s);
      assert sessions == [sessions[0]] + sessions[1..];
    }
  }

  /** Deleting from a list is deleting from each part: the order of what is kept is unchanged. */
  lemma {:induction false} WithoutIdConcat(a: seq<Session>, b: seq<Session>, id: string)
    ensures WithoutId(a + b, id) == WithoutId(a, id) + WithoutId(b, id)
  {
    if a == [] {
      assert a + b == b;
    } else {
      assert (a + b)[1..] == a[1..] + b;
      WithoutIdConcat(a[1..], b, id);
    }
  }

  /** Deleting an id that no session has changes nothing. */
  lemma {:induction false} WithoutIdUnknown(sessions: seq<Session>, id: string)
    requires forall k :: 0 <= k < |sessions| ==> sessions[k].id != id
    ensures WithoutId(sessions, id) == sessions
  {
    if sessions != [] {
      WithoutIdUnknown(sessions[1..], id);
      assert sessions == [sessions[0]] + sessions[1..];
    }
  }

  /** After a delete no session has the id any more. */
  lemma DeleteThenGet(sessions: seq<Session>, id: string)
    ensures FirstWithId(WithoutId(sessions, id), id).None?
  {
    var rest := WithoutId(sessions, id);
    forall k | 0 <= k < |rest| ensures rest[k].id != id {
      WithoutIdMembers(sessions, id, rest[k]);
    }
  }

  /** A delete does not change which session another id finds. */
  lemma {:induction false} DeleteKeepsOthers(sessions: seq<Session>, id: string, other: string)
    requires other != id
    ensures FirstWithId(WithoutId(sessions, id), other) == FirstWithId(sessions, other)
  {
    if sessions != [] {
      DeleteKeepsOthers(sessions[1..], id, other);
      var head := if sessions[0].id == id then [] else [sessions[0]];
      var rest := WithoutId(sessions[1..], id);
      if sessions[0].id != id {
        assert ([sessions[0]] + rest)[1..] == rest;
      } else {
        assert head + rest == rest;
      }
    }
  }

  /** Right after a create with an id no session had, looking that id up finds the new session. */
  lemma {:induction false} CreateThenGet(sessions: seq<Session>, s: Session)
    requires forall k :: 0 <= k < |sessions| ==> sessions[k].id != s.id
    ensures FirstWithId(sessions + [s], s.id) == Some(s)
  {
    if sessions == [] {
      assert sessions + [s] == [s];
    } else {
      assert (sessions + [s])[1..] == sessions[1..] + [s];
      CreateThenGet(sessions[1..], s);
    }
  }

  /** A create does not change which earlier session an id finds. */
  lemma {:induction false} CreateKeepsFound(sessions: seq<Session>, s: Session, id: string)
    requires FirstWithId(sessions, id).Some?
    ensures FirstWithId(sessions + [s], id) == FirstWithId(sessions, id)
  {
    if sessions[0].id != id {
      assert (sessions + [s])[1..] == sessions[1..] + [s];
      CreateKeepsFound(sessions[1..], s, id);
    }
  }

  // ----- Properties of the geometry parse -----

  /** A `KEY: A<sep>B` text as `xdotool` prints it. */
  function PairLine(key: string, sep: char, a: nat, b: nat): string {
    key + " " + NatToString(a) + [sep] + NatToString(b)
  }

  /** A pair key that occurs first right before its values is what the search reads. */
  lemma PairValuesAt(pre: string, key: string, sep: char, a: nat, b: nat, post: string)
    requires key != [] && Lacks(key[1..], key[0]) && !Contains(pre, key)
    requires !IsDigit(sep) && !IsSpace(sep)
    requires post == [] || !IsDigit(post[0])
    ensures PairValues(key, sep, pre + PairLine(key, sep, a, b) + post) == Some((a, b))
  {
    var sa, sb := NatToString(a), NatToString(b);
    Regroup7(pre, key, " ", sa, [sep], sb, post);
    var s := pre + key + " " + sa + [sep] + sb + post;
    PairMatchesRendered(pre, key, " ", a, sep, b, post);
    assert s[..|pre|] == pre;
    AbsentBeforeOccurrence(s, |pre|, key);
    SearchFindsAt(Pair(key, sep), s, |pre|, [sa, sb]);
    NumeralValueOfNatToString(a);
    NumeralValueOfNatToString(b);
  }

  lemma MarkerFacts()
    ensures !IsDigit(',') && !IsDigit('x') && !IsSpace(',') && !IsSpace('x')
    ensures Lacks("Position:"[1..], 'P') && Lacks("Geometry:"[1..], 'G')
  {
  }

  /**
    Output with a position line and then a size line gives that position and size, provided
    the size is positive and each key first occurs on its line.
   */
  lemma GeometryOfOutput(pre: string, x: nat, y: nat, mid: string, w: nat, h: nat, post: string)
    requires !Contains(pre, "Position:")
    requires !Contains(pre + PairLine("Position:", ',', x, y) + mid, "Geometry:")
    requires mid == [] || !IsDigit(mid[0])
    requires post == [] || !IsDigit(post[0])
    requires w > 0 && h > 0
    ensures var output := pre + PairLine("Position:", ',', x, y) + (mid + PairLine("Geometry:", 'x', w, h) + post);
            ParseGeometry(output) == Some(Geometry(x, y, w, h))
  {
    var posLine := PairLine("Position:", ',', x, y);
    var geoLine := PairLine("Geometry:", 'x', w, h);
    MarkerFacts();
    PairValuesAt(pre, "Position:", ',', x, y, mid + geoLine + post);
    RegroupMiddle(pre, posLine, mid, geoLine, post);
    PairValuesAt(pre + posLine + mid, "Geometry:", 'x', w, h, post);
  }

  /** Without a position line the window is placed at 0,0. */
  lemma GeometryWithoutPosition(pre: string, w: nat, h: nat, post: string)
    requires !Contains(pre, "Geometry:")
    requires !Contains(pre + PairLine("Geometry:", 'x', w, h) + post, "Position:")
    requires post == [] || !IsDigit(post[0])
    requires w > 0 && h > 0
    ensures ParseGeometry(pre + PairLine("Geometry:", 'x', w, h) + post) == Some(Geometry(0, 0, w, h))
  {
    MarkerFacts();
    PairValuesAt(pre, "Geometry:", 'x', w, h, post);
    SearchWithoutKey(Pair("Position:", ','), pre + PairLine("Geometry:", 'x', w, h) + post);
  }

  /** A zero width or height on the first size line gives no geometry, whatever the position. */
  lemma GeometryNeedsSize(pre: string, w: nat, h: nat, post: string)
    requires !Contains(pre, "Geometry:")
    requires post == [] || !IsDigit(post[0])
    requires w == 0 || h == 0
    ensures ParseGeometry(pre + PairLine("Geometry:", 'x', w, h) + post).None?
  {
    MarkerFacts();
    PairValuesAt(pre, "Geometry:", 'x', w, h, post);
  }

  /** When the search prints several window ids, one per line, the last one is queried. */
  lemma WindowIdIsLast(ids: seq<string>)
    requires |ids| > 0
    requires forall k :: 0 <= k < |ids| ==> ids[k] != [] && NoSpace(ids[k])
    ensures WindowId(Join(ids, "\n")) == Last(ids)
  {
    forall k | 0 <= k < |ids| ensures Lacks(ids[k], '\n') {
      assert forall i :: 0 <= i < |ids[k]| ==> !IsSpace(ids[k][i]);
    }
    JoinEdges(ids, "\n");
    var out := Join(ids, "\n");
    StripNoEdgeSpace(out);
    SplitJoin(ids, "\n");
  }
}
