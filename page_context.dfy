/**
 * Page-context classification: from the location path and one fact about the
 * page (is a pipeline-board column present?), the object kind and the view
 * kind the extension is looking at, or none.
 */
module PageContext {
  import opened Wrappers
  import opened Text

  datatype ViewKind = RecordView | ListView | KanbanView

  datatype Context = Context(objectKind: string, view: ViewKind)

  const LightningPrefix: string := "/lightning/"

  /** `/lightning/<mode>/<seg>/` stands in the path at index `i`, with `mode`
   *  `r` or `o` and `seg` non-empty and free of slashes: a match of the
   *  pattern `\/lightning\/(r|o)\/([^/]+)\/` starting at `i`. */
  ghost predicate OccurrenceAt(path: string, i: int, mode: char, seg: string) {
    && (mode == 'r' || mode == 'o')
    && seg != []
    && '/' !in seg
    && OccursAt(path, LightningPrefix + [mode, '/'] + seg + "/", i)
  }

  /** No occurrence starts before index `i`. */
  ghost predicate NoOccurrenceBefore(path: string, i: int) {
    forall j, mode, seg :: 0 <= j < i ==> !OccurrenceAt(path, j, mode, seg)
  }

  /** Length of the run of non-slash characters starting at `i`. */
  function NonSlashRun(s: string, i: nat): (n: nat)
    requires i <= |s|
    ensures i + n <= |s|
    ensures forall k :: i <= k < i + n ==> s[k] != '/'
    ensures i + n == |s| || s[i + n] == '/'
    decreases |s| - i
  {
    if i == |s| || s[i] == '/' then 0 else 1 + NonSlashRun(s, i + 1)
  }

  /** The pattern tried at index `i`: the mode and the object segment. The
   *  greedy `[^/]+` takes the whole run of non-slash characters, and the run
   *  must be followed by a slash. */
  function MatchAt(path: string, i: nat): (r: Option<(char, string)>)
    requires i <= |path|
    ensures r.Some? ==> (r.value.0 == 'r' || r.value.0 == 'o') && r.value.1 != []
  {
    if i + 13 <= |path| && path[i..i + 11] == LightningPrefix
       && (path[i + 11] == 'r' || path[i + 11] == 'o') && path[i + 12] == '/'
    then
      var n := NonSlashRun(path, i + 13);
      if n >= 1 && i + 13 + n < |path| then Some((path[i + 11], path[i + 13..i + 13 + n])) else None
    else None
  }

  /** The leftmost match at or after `from`. */
  function FirstMatch(path: string, from: nat): (r: Option<(char, string)>)
    requires from <= |path|
    ensures r.Some? ==> (r.value.0 == 'r' || r.value.0 == 'o') && r.value.1 != []
    decreases |path| - from
  {
    if MatchAt(path, from).Some? then MatchAt(path, from)
    else if from == |path| then None
    else FirstMatch(path, from + 1)
  }

  /** `getPageContext()`. */
  function GetPageContext(path: string, kanbanColumnPresent: bool): (r: Option<Context>)
    ensures r.Some? ==> r.value.objectKind != []
    ensures r.Some? && r.value.view == RecordView ==> Contains(path, "/view")
    ensures r.Some? && r.value.view != RecordView ==> Contains(path, "/list") || Contains(path, "/home")
    ensures r.Some? && r.value.view == KanbanView ==> kanbanColumnPresent
    ensures r.Some? && r.value.view == ListView ==> !kanbanColumnPresent
  {
    match FirstMatch(path, 0)
    case None => None
    case Some((mode, obj)) =>
      if mode == 'r' && Contains(path, "/view") then Some(Context(obj, RecordView))
      else if mode == 'o' && (Contains(path, "/list") || Contains(path, "/home")) then
        Some(Context(obj, if kanbanColumnPresent then KanbanView else ListView))
      else None
  }

  /** The scanner at one index agrees with the pattern's meaning. */
  lemma MatchAtIff(path: string, i: nat, mode: char, seg: string)
    requires i <= |path|
    ensures MatchAt(path, i) == Some((mode, seg)) <==> OccurrenceAt(path, i, mode, seg)
  {
    if OccurrenceAt(path, i, mode, seg) {
      OccurrenceIsMatched(path, i, mode, seg);
    }
    if MatchAt(path, i) == Some((mode, seg)) {
      MatchIsOccurrence(path, i, mode, seg);
    }
  }

  lemma OccurrenceIsMatched(path: string, i: nat, mode: char, seg: string)
    requires i <= |path| && OccurrenceAt(path, i, mode, seg)
    ensures MatchAt(path, i) == Some((mode, seg))
  {
    var pat := LightningPrefix + [mode, '/'] + seg + "/";
    assert |pat| == 14 + |seg|;
    var window := path[i..i + |pat|];
    assert window == pat;
    assert path[i..i + 11] == window[..11] == LightningPrefix;
    assert path[i + 11] == window[11] == mode;
    assert path[i + 12] == window[12] == '/';
    forall k | 0 <= k < |seg| ensures path[i + 13 + k] == seg[k] {
      assert path[i + 13 + k] == window[13 + k] == pat[13 + k];
    }
    assert path[i + 13 + |seg|] == window[13 + |seg|] == '/';
    assert forall k :: i + 13 <= k < i + 13 + |seg| ==> path[k] == seg[k - i - 13];
    RunEndsAtSlash(path, i + 13, |seg|);
    assert path[i + 13..i + 13 + |seg|] == seg;
  }

  lemma MatchIsOccurrence(path: string, i: nat, mode: char, seg: string)
    requires i <= |path| && MatchAt(path, i) == Some((mode, seg))
    ensures OccurrenceAt(path, i, mode, seg)
  {
    var pat := LightningPrefix + [mode, '/'] + seg + "/";
    var n := NonSlashRun(path, i + 13);
    assert seg == path[i + 13..i + 13 + n];
    assert '/' !in seg by {
      forall k | 0 <= k < |seg| ensures seg[k] != '/' {
        assert seg[k] == path[i + 13 + k];
      }
    }
    assert path[i..i + |pat|] == path[i..i + 11] + [path[i + 11], path[i + 12]]
      + path[i + 13..i + 13 + n] + [path[i + 13 + n]];
  }

  /** A run of non-slashes ended by a slash is the whole run. */
  lemma RunEndsAtSlash(s: string, i: nat, n: nat)
    requires i + n < |s|
    requires forall k :: i <= k < i + n ==> s[k] != '/'
    requires s[i + n] == '/'
    ensures NonSlashRun(s, i) == n
    decreases n
  {
    if n > 0 {
      RunEndsAtSlash(s, i + 1, n - 1);
    }
  }

  /** The scan returns the leftmost occurrence, or none when there is none. */
  lemma {:induction false} FirstMatchIsLeftmost(path: string, from: nat)
    requires from <= |path|
    requires NoOccurrenceBefore(path, from)
    ensures FirstMatch(path, from).None? ==> NoOccurrenceBefore(path, |path| + 1)
    ensures FirstMatch(path, from).Some? ==>
      exists i :: from <= i <= |path| && NoOccurrenceBefore(path, i)
        && OccurrenceAt(path, i, FirstMatch(path, from).value.0, FirstMatch(path, from).value.1)
    decreases |path| - from
  {
    match MatchAt(path, from)
    case Some((mode, seg)) =>
      MatchAtIff(path, from, mode, seg);
    case None =>
      forall mode, seg ensures !OccurrenceAt(path, from, mode, seg) {
        MatchAtIff(path, from, mode, seg);
      }
      assert NoOccurrenceBefore(path, from + 1);
      if from == |path| {
        forall j, mode, seg | 0 <= j < |path| + 1 ensures !OccurrenceAt(path, j, mode, seg) {
        }
      } else {
        FirstMatchIsLeftmost(path, from + 1);
      }
  }

  /** The path holds no `/lightning/r/<seg>/` or `/lightning/o/<seg>/` at all:
   *  no context. Otherwise the object kind is the first such segment. */
  lemma ContextComesFromFirstOccurrence(path: string, kanbanColumnPresent: bool)
    ensures NoOccurrenceBefore(path, |path| + 1) ==> GetPageContext(path, kanbanColumnPresent).None?
    ensures GetPageContext(path, kanbanColumnPresent).Some? ==>
      exists i, mode :: NoOccurrenceBefore(path, i)
        && OccurrenceAt(path, i, mode, GetPageContext(path, kanbanColumnPresent).value.objectKind)
  {
    FirstMatchIsLeftmost(path, 0);
  }

  /** Two occurrences that both have none before them are the same one. */
  lemma LeftmostUnique(path: string, i: int, mode: char, seg: string, j: int, mode': char, seg': string)
    requires NoOccurrenceBefore(path, i) && OccurrenceAt(path, i, mode, seg)
    requires NoOccurrenceBefore(path, j) && OccurrenceAt(path, j, mode', seg')
    ensures i == j && mode == mode' && seg == seg'
  {
    assert !(i < j) && !(j < i);
    MatchAtIff(path, i, mode, seg);
    MatchAtIff(path, i, mode', seg');
  }

  /** Record mode: a record view exactly when the path contains `/view`. */
  lemma RecordMode(path: string, i: int, seg: string, kanbanColumnPresent: bool)
    requires NoOccurrenceBefore(path, i) && OccurrenceAt(path, i, 'r', seg)
    ensures GetPageContext(path, kanbanColumnPresent)
      == if Contains(path, "/view") then Some(Context(seg, RecordView)) else None
  {
    FirstOccurrenceFound(path, i, 'r', seg);
  }

  /** Listing mode: with `/list` or `/home` in the path, a board when the
   *  column marker is present and a list otherwise; no context without them. */
  lemma ListingMode(path: string, i: int, seg: string, kanbanColumnPresent: bool)
    requires NoOccurrenceBefore(path, i) && OccurrenceAt(path, i, 'o', seg)
    ensures GetPageContext(path, kanbanColumnPresent)
      == if Contains(path, "/list") || Contains(path, "/home")
         then Some(Context(seg, if kanbanColumnPresent then KanbanView else ListView))
         else None
  {
    FirstOccurrenceFound(path, i, 'o', seg);
  }

  lemma FirstOccurrenceFound(path: string, i: int, mode: char, seg: string)
    requires NoOccurrenceBefore(path, i) && OccurrenceAt(path, i, mode, seg)
    ensures FirstMatch(path, 0) == Some((mode, seg))
  {
    FirstMatchIsLeftmost(path, 0);
    assert FirstMatch(path, 0).Some? by {
      assert !NoOccurrenceBefore(path, |path| + 1) by {
        assert i < |path| + 1;
      }
    }
    var m := FirstMatch(path, 0).value;
    var j :| 0 <= j <= |path| && NoOccurrenceBefore(path, j) && OccurrenceAt(path, j, m.0, m.1);
    LeftmostUnique(path, i, mode, seg, j, m.0, m.1);
  }
}
