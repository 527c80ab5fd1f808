/**
 * The comma-separated tag field shared by `src/components/NewProjectModal.tsx`
 * and `src/components/EditProjectModal.tsx`: parsing with
 * `split(',').map(t => t.trim()).filter(Boolean)` and showing with
 * `join(', ')`.
 */
module Tags {
  import opened Seqs
  import opened Text

  /** `Boolean` on a string: non-empty. */
  function NonEmpty(s: string): bool { s != "" }

  /** The trimmed pieces of the field, before empty ones are dropped. */
  function TrimmedPieces(text: string): (r: seq<string>)
    ensures |r| == |Split(text, ',')|
    ensures forall k :: 0 <= k < |r| ==> r[k] == Trim(Split(text, ',')[k])
  {
    Map(Split(text, ','), Trim)
  }

  /** Every trimmed piece is trimmed and holds no comma. */
  lemma TrimmedPiecesShape(text: string)
    ensures forall t :: t in TrimmedPieces(text) ==> IsTrimmed(t) && ',' !in t
  {
    var pieces := TrimmedPieces(text);
    forall t | t in pieces
      ensures IsTrimmed(t) && ',' !in t
    {
      var k :| 0 <= k < |pieces| && pieces[k] == t;
      TrimKeepsOut(Split(text, ',')[k], ',');
    }
  }

  /**
   * The tags typed into the field: exactly the non-empty trimmed pieces,
   * each as often as typed and in input order; trimmed and comma-free.
   */
  function ParseTags(text: string): (r: seq<string>)
    ensures forall t :: t in r ==> t != "" && IsTrimmed(t) && ',' !in t
    ensures IsSubsequence(r, TrimmedPieces(text))
    ensures forall t :: t in TrimmedPieces(text) && t != "" ==> t in r
    ensures forall t :: multiset(r)[t] == if t == "" then 0 else multiset(TrimmedPieces(text))[t]
  {
    var pieces := TrimmedPieces(text);
    TrimmedPiecesShape(text);
    FilterIsSubsequence(pieces, NonEmpty);
    FilterCounts(pieces, NonEmpty);
    Filter(pieces, NonEmpty)
  }

  /** How the edit form shows a project's tags. */
  function JoinTags(tags: seq<string>): string {
    Join(tags, ", ")
  }

  /** A tag that survives a show-then-parse cycle. */
  ghost predicate Canonical(t: string) {
    t != "" && IsTrimmed(t) && ',' !in t
  }

  function Spaced(t: string): string { " " + t }

  /** `p + x` as the first piece: the prefix comes out in front of the join. */
  lemma JoinHeadPrefix(p: string, x: string, rest: seq<string>, sep: string)
    ensures Join([p + x] + rest, sep) == p + Join([x] + rest, sep)
  {
    if |rest| > 0 {
      assert ([p + x] + rest)[1..] == rest;
      assert ([x] + rest)[1..] == rest;
    }
  }

  /** `", "` between tags is `","` between the tags with a space put in front of all but the first. */
  lemma {:induction false} JoinSpaced(h: string, ts: seq<string>)
    ensures Join([h] + Map(ts, Spaced), ",") == Join([h] + ts, ", ")
    decreases |ts|
  {
    if |ts| > 0 {
      var tail := Map(ts[1..], Spaced);
      assert Map(ts, Spaced) == [Spaced(ts[0])] + tail;
      assert ([h] + Map(ts, Spaced))[1..] == Map(ts, Spaced);
      assert ([h] + ts)[1..] == ts;
      JoinSpaced(ts[0], ts[1..]);
      JoinHeadPrefix(" ", ts[0], tail, ",");
      assert ts == [ts[0]] + ts[1..];
    }
  }

  /** Showing canonical tags and parsing the field again gives the same tags. */
  lemma ParseJoin(tags: seq<string>)
    requires forall t :: t in tags ==> Canonical(t)
    ensures ParseTags(JoinTags(tags)) == tags
  {
    if |tags| == 0 {
      assert Split("", ',') == [""];
      assert TrimmedPieces("") == [""];
      assert !NonEmpty("");
      assert Filter([""], NonEmpty) == Filter([], NonEmpty) + [];
    } else {
      var pieces := [tags[0]] + Map(tags[1..], Spaced);
      JoinSpaced(tags[0], tags[1..]);
      assert tags == [tags[0]] + tags[1..];
      assert JoinTags(tags) == Join(pieces, [',']);
      forall k | 0 <= k < |pieces|
        ensures ',' !in pieces[k]
      {
        if k > 0 {
          assert pieces[k] == Map(tags[1..], Spaced)[k - 1] == " " + tags[k];
          assert tags[k] in tags;
          assert ',' !in tags[k];
          assert ',' !in " ";
        } else {
          assert tags[0] in tags;
        }
      }
      SplitJoin(pieces, ',');
      var trimmed := TrimmedPieces(JoinTags(tags));
      forall k | 0 <= k < |tags|
        ensures trimmed[k] == tags[k]
      {
        assert tags[k] in tags;
        if k == 0 {
          TrimOfTrimmed(tags[0]);
        } else {
          TrimAfterSpace(tags[k]);
        }
      }
      assert trimmed == tags;
    }
  }
}
