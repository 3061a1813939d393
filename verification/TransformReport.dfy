/**
 The path trimming that the Ruby extension applies to a report. It collects the trimmed
 traces into a HashMap, which keeps one count where two traces become equal.
 */
module TransformReport {
  import opened Wrappers
  import opened BackendTypes

  // ------------------------------------------------------------------ one path

  predicate StartsWith(s: string, pattern: string) {
    |pattern| <= |s| && s[..|pattern|] == pattern
  }

  lemma TailsOfTail(s: string)
    requires s != ""
    ensures forall i | 0 < i <= |s| :: s[1..][i - 1..] == s[i..]
  {
  }

  /** `str::find`: the first place where the pattern is. */
  function Find(s: string, pattern: string): (r: Option<nat>)
    ensures r.Some? ==> r.value + |pattern| <= |s| && StartsWith(s[r.value..], pattern)
    ensures r.Some? ==> forall i | 0 <= i < r.value :: !StartsWith(s[i..], pattern)
    ensures r.None? ==> forall i | 0 <= i <= |s| :: !StartsWith(s[i..], pattern)
  {
    assert s[0..] == s;
    if StartsWith(s, pattern) then Some(0)
    else if s == "" then None
    else
      var rest := Find(s[1..], pattern);
      TailsOfTail(s);
      if rest.Some? then Some(rest.value + 1) else None
  }

  /** The slice begins one byte further, which is past the end or inside of a wider character. */
  predicate CanSkip(s: string, i: nat) {
    i < |s| && s[i] as int < 0x80
  }

  /** None is the panic of slicing there. */
  function TrimPath(cwd: string, s: string): Option<string> {
    match Find(s, cwd)
    case Some(i) => if CanSkip(s, i + |cwd|) then Some(s[i + |cwd| + 1..]) else None
    case None =>
      match Find(s, "/gems/")
      case Some(i) => Some(s[i + 1..])
      case None =>
        match Find(s, "/ruby/")
        case None => Some(s)
        case Some(i) => Some(BehindVersion(s[i + 6..]))
  }

  function BehindVersion(t: string): string {
    match Find(t, "/")
    case Some(j) => t[j + 1..]
    case None => t
  }

  /** The first mention of the directory is at `i`. */
  ghost predicate FirstAt(cwd: string, s: string, i: nat) {
    && i + |cwd| <= |s| && s[i..i + |cwd|] == cwd
    && forall j | 0 <= j < i :: !StartsWith(s[j..], cwd)
  }

  /** After the first mention of the directory the path ends, or goes on outside ASCII. */
  ghost predicate BadPath(cwd: string, s: string) {
    exists i: nat :: FirstAt(cwd, s, i) && (i + |cwd| == |s| || s[i + |cwd|] as int >= 0x80)
  }

  lemma FindFirst(cwd: string, s: string, i: nat)
    ensures FirstAt(cwd, s, i) <==> Find(s, cwd) == Some(i)
  {
    if i + |cwd| <= |s| { assert s[i..][..|cwd|] == s[i..i + |cwd|]; }
    if FirstAt(cwd, s, i) { assert StartsWith(s[i..], cwd); }
  }

  /** Trimming panics exactly on such a path. */
  lemma PathPanicsIff(cwd: string, s: string)
    ensures TrimPath(cwd, s).None? <==> BadPath(cwd, s)
  {
    if BadPath(cwd, s) {
      var i: nat :| FirstAt(cwd, s, i) && (i + |cwd| == |s| || s[i + |cwd|] as int >= 0x80);
      FindFirst(cwd, s, i);
    }
    if TrimPath(cwd, s).None? {
      FindFirst(cwd, s, Find(s, cwd).value);
    }
  }

  ghost predicate Nowhere(pattern: string, s: string) {
    forall i | 0 <= i <= |s| :: !StartsWith(s[i..], pattern)
  }

  lemma FindNone(pattern: string, s: string)
    ensures Find(s, pattern) == None <==> Nowhere(pattern, s)
  {
    var f := Find(s, pattern);
    assert f.Some? ==> StartsWith(s[f.value..], pattern);
  }

  /** In the working directory what is left is the path below it. */
  lemma TrimDirectory(cwd: string, s: string, before: string, c: char, rest: string)
    requires s == before + cwd + [c] + rest && FirstAt(cwd, s, |before|) && c as int < 0x80
    ensures TrimPath(cwd, s) == Some(rest)
  {
    FindFirst(cwd, s, |before|);
    assert s[|before| + |cwd|] == c && s[|before| + |cwd| + 1..] == rest;
  }

  /** Elsewhere a path into a gem is kept from "gems/" on. */
  lemma TrimGem(cwd: string, s: string, before: string, rest: string)
    requires s == before + "/gems/" + rest && Nowhere(cwd, s) && FirstAt("/gems/", s, |before|)
    ensures TrimPath(cwd, s) == Some("gems/" + rest)
  {
    FindNone(cwd, s);
    FindFirst("/gems/", s, |before|);
    assert "/gems/"[1..] == "gems/" && s[|before| + 1..] == "gems/" + rest;
  }

  lemma SlashAfter(version: string, rest: string)
    requires '/' !in version
    ensures Find(version + "/" + rest, "/") == Some(|version|)
  {
    var t := version + "/" + rest;
    assert t[|version|..|version| + 1] == "/";
    forall j | 0 <= j < |version| ensures !StartsWith(t[j..], "/") {
      assert t[j..][..1] == [version[j]];
    }
    FindFirst("/", t, |version|);
  }

  lemma NoSlash(s: string)
    requires '/' !in s
    ensures Find(s, "/") == None
  {
    forall j | 0 <= j <= |s| ensures !StartsWith(s[j..], "/") {
      if j < |s| { assert s[j..][..1] == [s[j]]; }
    }
    FindNone("/", s);
  }

  /** A path into the library of Ruby is cut behind "/ruby/", and then behind the version. */
  lemma TrimLibrary(cwd: string, s: string, before: string, rest: string)
    requires s == before + "/ruby/" + rest
    requires Nowhere(cwd, s) && Nowhere("/gems/", s) && FirstAt("/ruby/", s, |before|)
    ensures TrimPath(cwd, s) == Some(BehindVersion(rest))
  {
    FindNone(cwd, s);
    FindNone("/gems/", s);
    FindFirst("/ruby/", s, |before|);
    Behind(s, before, "/ruby/", rest);
    CutLibrary(cwd, s, |before|, rest);
  }

  lemma CutLibrary(cwd: string, s: string, i: nat, rest: string)
    requires Find(s, cwd) == None && Find(s, "/gems/") == None && Find(s, "/ruby/") == Some(i) && s[i + 6..] == rest
    ensures TrimPath(cwd, s) == Some(BehindVersion(rest))
  {
  }

  lemma Behind(s: string, before: string, pattern: string, rest: string)
    requires s == before + pattern + rest
    ensures s[|before| + |pattern|..] == rest
  {
  }

  lemma TrimRuby(cwd: string, s: string, before: string, version: string, rest: string)
    requires s == before + "/ruby/" + (version + "/" + rest) && '/' !in version
    requires Nowhere(cwd, s) && Nowhere("/gems/", s) && FirstAt("/ruby/", s, |before|)
    ensures TrimPath(cwd, s) == Some(rest)
  {
    TrimLibrary(cwd, s, before, version + "/" + rest);
    SlashAfter(version, rest);
    assert (version + "/" + rest)[|version| + 1..] == rest;
  }

  lemma TrimRubyFile(cwd: string, s: string, before: string, rest: string)
    requires s == before + "/ruby/" + rest && '/' !in rest
    requires Nowhere(cwd, s) && Nowhere("/gems/", s) && FirstAt("/ruby/", s, |before|)
    ensures TrimPath(cwd, s) == Some(rest)
  {
    TrimLibrary(cwd, s, before, rest);
    NoSlash(rest);
  }

  /** Any other path stays as it is. */
  lemma TrimOther(cwd: string, s: string)
    requires Nowhere(cwd, s) && Nowhere("/gems/", s) && Nowhere("/ruby/", s)
    ensures TrimPath(cwd, s) == Some(s)
  {
    FindNone(cwd, s);
    FindNone("/gems/", s);
    FindNone("/ruby/", s);
  }

  /** A program that is named like the directory ends with the first mention of it. */
  lemma PathCanPanic()
    ensures BadPath("/app", "/usr/bin/app") && TrimPath("/app", "/usr/bin/app").None?
  {
    var s := "/usr/bin/app";
    assert s[8..12] == "/app";
    forall i | 0 <= i < 8 ensures !StartsWith(s[i..], "/app") {
      assert s[i..][..4][0] == s[i] && s[i..][..4][1] == s[i + 1];
    }
    assert FirstAt("/app", s, 8);
    PathPanicsIff("/app", s);
  }

  // ----------------------------------------------------------------- one trace

  /** None is the panic on a frame without a file name, or that of its path. */
  function TrimFrame(cwd: string, f: StackFrame): Option<StackFrame> {
    if f.filename.None? then None
    else
      match TrimPath(cwd, f.filename.value)
      case None => None
      case Some(s) => Some(f.(filename := Some(s)))
  }

  function TrimFrames(cwd: string, frames: seq<StackFrame>): (r: Option<seq<StackFrame>>)
    ensures r.Some? ==> |r.value| == |frames|
  {
    if frames == [] then Some([])
    else
      var init, last := TrimFrames(cwd, frames[..|frames| - 1]), TrimFrame(cwd, frames[|frames| - 1]);
      if init.Some? && last.Some? then Some(init.value + [last.value]) else None
  }

  function TrimTrace(cwd: string, t: StackTrace): Option<StackTrace> {
    match TrimFrames(cwd, t.frames)
    case None => None
    case Some(frames) => Some(t.(frames := frames))
  }

  lemma {:induction false} TrimFramesAt(cwd: string, frames: seq<StackFrame>, i: nat)
    requires TrimFrames(cwd, frames).Some? && i < |frames|
    ensures TrimFrame(cwd, frames[i]) == Some(TrimFrames(cwd, frames).value[i])
  {
    if i < |frames| - 1 { TrimFramesAt(cwd, frames[..|frames| - 1], i); }
  }

  /** Every frame has a file name, and no path is a bad one. */
  ghost predicate Trimmable(cwd: string, t: StackTrace) {
    forall i | 0 <= i < |t.frames| :: FrameTrimmable(cwd, t.frames[i])
  }

  ghost predicate FrameTrimmable(cwd: string, f: StackFrame) {
    f.filename.Some? && !BadPath(cwd, f.filename.value)
  }

  lemma {:induction false} TrimFramesIff(cwd: string, frames: seq<StackFrame>)
    ensures TrimFrames(cwd, frames).Some? <==> forall i | 0 <= i < |frames| :: FrameTrimmable(cwd, frames[i])
  {
    if frames != [] {
      var n := |frames| - 1;
      TrimFramesIff(cwd, frames[..n]);
      if frames[n].filename.Some? { PathPanicsIff(cwd, frames[n].filename.value); }
      assert forall i | 0 <= i < n :: frames[..n][i] == frames[i];
    }
  }

  /** A trace can be trimmed exactly if its paths allow it. */
  lemma TrimTraceIff(cwd: string, t: StackTrace)
    ensures TrimTrace(cwd, t).Some? <==> Trimmable(cwd, t)
  {
    TrimFramesIff(cwd, t.frames);
  }

  /** For the traces of the Ruby backend, which all have file names, it depends on the paths alone. */
  lemma RbspyPanicsIff(cwd: string, t: StackTrace)
    requires FromRbspy(t)
    ensures TrimTrace(cwd, t).None? <==> exists i :: 0 <= i < |t.frames| && BadPath(cwd, t.frames[i].filename.value)
  {
    TrimTraceIff(cwd, t);
    if TrimTrace(cwd, t).None? {
      var i :| 0 <= i < |t.frames| && !FrameTrimmable(cwd, t.frames[i]);
      assert BadPath(cwd, t.frames[i].filename.value);
    }
  }

  // -------------------------------------------------------------- the whole report

  /** Every trace outside `rest` is there, and every count is that of one of these. */
  ghost predicate CollectedBut(cwd: string, data: map<StackTrace, nat>, rest: set<StackTrace>, result: map<StackTrace, nat>) {
    && (forall t | t in data && t !in rest :: TrimTrace(cwd, t).Some? && TrimTrace(cwd, t).value in result)
    && (forall u | u in result :: HasSource(cwd, data, rest, u, result[u]))
  }

  ghost predicate HasSource(cwd: string, data: map<StackTrace, nat>, rest: set<StackTrace>, u: StackTrace, n: nat) {
    exists t :: t in data && t !in rest && TrimTrace(cwd, t) == Some(u) && data[t] == n
  }

  ghost predicate Collected(cwd: string, data: map<StackTrace, nat>, result: map<StackTrace, nat>) {
    CollectedBut(cwd, data, {}, result)
  }

  lemma CollectedMore(cwd: string, data: map<StackTrace, nat>, rest: set<StackTrace>, result: map<StackTrace, nat>, t: StackTrace)
    requires CollectedBut(cwd, data, rest, result) && t in data && t in rest && TrimTrace(cwd, t).Some?
    ensures CollectedBut(cwd, data, rest - {t}, result[TrimTrace(cwd, t).value := data[t]])
  {
    var v, less := TrimTrace(cwd, t).value, rest - {t};
    forall u | u in result && u != v ensures HasSource(cwd, data, less, u, result[u]) {
      assert HasSource(cwd, data, rest, u, result[u]);
      var x :| x in data && x !in rest && TrimTrace(cwd, x) == Some(u) && data[x] == result[u];
      assert x !in less;
    }
    assert HasSource(cwd, data, less, v, data[t]);
  }

  // ------------------------------------------------------------------ conservation

  /** How the Ruby backend makes frames: the relative path is in both fields. */
  predicate FromRbspy(t: StackTrace) {
    forall i | 0 <= i < |t.frames| :: t.frames[i].filename.Some? && t.frames[i].relativePath == t.frames[i].filename
  }

  /** Trimming cannot make two such traces equal, because each frame keeps its path. */
  lemma RbspyNeverMerges(cwd: string, a: StackTrace, b: StackTrace)
    requires FromRbspy(a) && FromRbspy(b) && TrimTrace(cwd, a).Some? && TrimTrace(cwd, a) == TrimTrace(cwd, b)
    ensures a == b
  {
    var frames := TrimTrace(cwd, a).value.frames;
    assert |a.frames| == |frames| == |b.frames|;
    forall i | 0 <= i < |frames| ensures a.frames[i] == b.frames[i] {
      TrimFramesAt(cwd, a.frames, i);
      TrimFramesAt(cwd, b.frames, i);
      assert a.frames[i].relativePath == frames[i].relativePath == b.frames[i].relativePath;
    }
    assert a.frames == b.frames;
    assert a == TrimTrace(cwd, a).value.(frames := a.frames);
    assert b == TrimTrace(cwd, b).value.(frames := b.frames);
  }

  /** Every trace has its own count under its trimmed form, and there is nothing else. */
  ghost predicate Conserved(cwd: string, data: map<StackTrace, nat>, result: map<StackTrace, nat>) {
    && (forall t | t in data :: Trimmable(cwd, t) && CountKept(cwd, data, result, t))
    && (forall u | u in result :: HasSource(cwd, data, {}, u, result[u]))
    && |result| == |data|
  }

  ghost predicate CountKept(cwd: string, data: map<StackTrace, nat>, result: map<StackTrace, nat>, t: StackTrace)
    requires t in data
  {
    TrimTrace(cwd, t).Some? && TrimTrace(cwd, t).value in result && result[TrimTrace(cwd, t).value] == data[t]
  }

  lemma OwnCount(cwd: string, data: map<StackTrace, nat>, result: map<StackTrace, nat>, t: StackTrace)
    requires Collected(cwd, data, result) && (forall x | x in data :: FromRbspy(x)) && t in data
    ensures Trimmable(cwd, t) && CountKept(cwd, data, result, t)
  {
    TrimTraceIff(cwd, t);
    var u := TrimTrace(cwd, t).value;
    assert HasSource(cwd, data, {}, u, result[u]);
    var x :| x in data && TrimTrace(cwd, x) == Some(u) && result[u] == data[x];
    RbspyNeverMerges(cwd, x, t);
  }

  /** As many trimmed traces as there were: none was lost and none came from nowhere. */
  lemma {:induction false} SameSize(cwd: string, from: set<StackTrace>, to: set<StackTrace>)
    requires forall t | t in from :: FromRbspy(t) && TrimTrace(cwd, t).Some? && TrimTrace(cwd, t).value in to
    requires forall u | u in to :: exists t :: t in from && TrimTrace(cwd, t) == Some(u)
    ensures |to| == |from|
    decreases from
  {
    if from == {} {
      assert to == {};
    } else {
      var t :| t in from;
      var u, less := TrimTrace(cwd, t).value, from - {t};
      forall x | x in less ensures TrimTrace(cwd, x).value in to - {u} {
        if TrimTrace(cwd, x) == TrimTrace(cwd, t) { RbspyNeverMerges(cwd, x, t); }
      }
      forall v | v in to - {u} ensures exists x :: x in less && TrimTrace(cwd, x) == Some(v) {
        var x :| x in from && TrimTrace(cwd, x) == Some(v);
        assert x in less;
      }
      SameSize(cwd, less, to - {u});
    }
  }

  /** The backend's reports keep every count, whatever the order. */
  lemma CountsConserved(cwd: string, data: map<StackTrace, nat>, result: map<StackTrace, nat>)
    requires Collected(cwd, data, result) && forall x | x in data :: FromRbspy(x)
    ensures Conserved(cwd, data, result)
  {
    forall t | t in data ensures Trimmable(cwd, t) && CountKept(cwd, data, result, t) {
      OwnCount(cwd, data, result, t);
    }
    forall u | u in result.Keys ensures exists t :: t in data.Keys && TrimTrace(cwd, t) == Some(u) {
      assert HasSource(cwd, data, {}, u, result[u]);
    }
    SameSize(cwd, data.Keys, result.Keys);
  }

  /** The map/collect, in any order. A report of the Ruby backend keeps every count. */
  method Transform(cwd: string, report: Report) returns (r: Option<Report>)
    ensures r.Some? <==> forall t | t in report.data :: Trimmable(cwd, t)
    ensures r.Some? ==> r.value.metadata == report.metadata && Collected(cwd, report.data, r.value.data)
    ensures r.Some? && (forall t | t in report.data :: FromRbspy(t)) ==> Conserved(cwd, report.data, r.value.data)
  {
    var rest := report.data.Keys;
    var result: map<StackTrace, nat> := map[];
    while rest != {}
      invariant rest <= report.data.Keys && CollectedBut(cwd, report.data, rest, result)
      decreases rest
    {
      var t :| t in rest;
      assert t in report.data;
      var trimmed := TrimTrace(cwd, t);
      TrimTraceIff(cwd, t);
      if trimmed.None? {
        return None;
      }
      CollectedMore(cwd, report.data, rest, result, t);
      result := result[trimmed.value := report.data[t]];
      rest := rest - {t};
    }
    forall t | t in report.data ensures Trimmable(cwd, t) {
      TrimTraceIff(cwd, t);
    }
    if forall t | t in report.data :: FromRbspy(t) {
      CountsConserved(cwd, report.data, result);
    }
    r := Some(Report(result, report.metadata));
  }

  lemma OneFrame(cwd: string, f: StackFrame, g: StackFrame)
    requires TrimFrame(cwd, f) == Some(g)
    ensures TrimFrames(cwd, [f]) == Some([g])
  {
    var s := [f];
    assert s[..|s| - 1] == [] && s[|s| - 1] == f;
    assert TrimFrames(cwd, s[..|s| - 1]) == Some([]);
    assert [] + [g] == [g];
  }

  lemma Trimmed(cwd: string, base: StackFrame, t: StackTrace)
    requires cwd == "/app"
    ensures TrimTrace(cwd, t.(frames := [base.(filename := Some("/app/x"))])) == Some(t.(frames := [base.(filename := Some("x"))]))
    ensures TrimTrace(cwd, t.(frames := [base.(filename := Some("x"))])) == Some(t.(frames := [base.(filename := Some("x"))]))
  {
    var f, g := base.(filename := Some("/app/x")), base.(filename := Some("x"));
    assert "/app/x"[..4] == "/app" && "/app/x"[5..] == "x";
    assert TrimPath(cwd, "/app/x") == Some("x");
    assert Find("x", "/app") == None && Find("x", "/gems/") == None && Find("x", "/ruby/") == None;
    OneFrame(cwd, f, g);
    OneFrame(cwd, g, g);
  }

  /**
   It is the relative path that keeps them apart. Of two traces that differ in the file
   name only, which the backend does not make, one count is lost.
   */
  lemma OthersCanMerge(cwd: string, base: StackFrame, t: StackTrace, m: nat, n: nat, result: map<StackTrace, nat>)
    requires cwd == "/app"
    ensures var a := t.(frames := [base.(filename := Some("/app/x"))]);
            var b := t.(frames := [base.(filename := Some("x"))]);
            a != b && (Collected(cwd, map[a := m, b := n], result) ==> result == map[b := m] || result == map[b := n])
  {
    var a := t.(frames := [base.(filename := Some("/app/x"))]);
    var b := t.(frames := [base.(filename := Some("x"))]);
    Trimmed(cwd, base, t);
    assert a.frames[0].filename != b.frames[0].filename;
    if Collected(cwd, map[a := m, b := n], result) { OneEntry(cwd, a, b, m, n, result); }
  }

  lemma OneEntry(cwd: string, a: StackTrace, b: StackTrace, m: nat, n: nat, result: map<StackTrace, nat>)
    requires TrimTrace(cwd, a) == TrimTrace(cwd, b) == Some(b) && Collected(cwd, map[a := m, b := n], result)
    ensures result == map[b := m] || result == map[b := n]
  {
    var data := map[a := m, b := n];
    forall u | u in result ensures u == b && (result[u] == m || result[u] == n) {
      assert HasSource(cwd, data, {}, u, result[u]);
    }
    assert b in data && b in result;
    assert result == map[b := result[b]];
  }
}
