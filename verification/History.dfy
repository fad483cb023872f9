/** What the last of a series of changes leaves behind. */
module History {
  import opened Wrappers

  /** What one step does to something that is kept, or not. */
  datatype Mark<T> = Sets(value: T) | Clears | Keeps

  function Marked<T>(before: Option<T>, mark: Mark<T>): Option<T> {
    match mark case Sets(v) => Some(v) case Clears => None case Keeps => before
  }

  /** Some step set this value, and every later one kept it. */
  ghost predicate LastSet<T>(marks: seq<Mark<T>>, v: T) {
    exists k :: 0 <= k < |marks| && marks[k] == Sets(v) && forall j :: k < j < |marks| ==> marks[j] == Keeps
  }

  ghost predicate AllKeep<T>(marks: seq<Mark<T>>) { forall k :: 0 <= k < |marks| ==> marks[k] == Keeps }

  lemma LastSetOneMore<T>(marks: seq<Mark<T>>, m: Mark<T>, v: T)
    ensures LastSet(marks + [m], v) <==> m == Sets(v) || (m == Keeps && LastSet(marks, v))
    ensures AllKeep(marks + [m]) <==> AllKeep(marks) && m == Keeps
  {
    var more, n := marks + [m], |marks|;
    assert forall j :: 0 <= j < n ==> more[j] == marks[j];
    if LastSet(more, v) {
      var k :| 0 <= k < |more| && more[k] == Sets(v) && forall j :: k < j < |more| ==> more[j] == Keeps;
      assert k < n ==> more[n] == Keeps && marks[k] == Sets(v);
    }
    if m == Sets(v) {
      assert more[n] == Sets(v);
    } else if m == Keeps && LastSet(marks, v) {
      var k :| 0 <= k < n && marks[k] == Sets(v) && forall j :: k < j < n ==> marks[j] == Keeps;
      assert more[k] == Sets(v);
    }
    if AllKeep(more) {
      assert more[n] == Keeps;
    }
  }
}
