/**
 * The status-filter toggle of `src/components/FilterDropdown.tsx`
 * (`handleStatusChange`).
 */
module FilterDropdown {
  import opened Seqs

  /** The predicate `s => s !== status`. */
  function IsNot(status: string): string -> bool {
    x => x != status
  }

  /**
   * `fs.filter(s => s !== status)`, defined from the end of the list: every
   * other status stays, as often as it occurs and in order.
   */
  function Without(fs: seq<string>, status: string): (r: seq<string>)
    ensures forall x :: x in r <==> x in fs && x != status
    ensures forall x :: multiset(r)[x] == if x == status then 0 else multiset(fs)[x]
    ensures status !in fs ==> r == fs
    ensures IsSubsequence(r, fs)
    ensures r == Filter(fs, IsNot(status))
    decreases |fs|
  {
    if |fs| == 0 then []
    else
      var init := fs[..|fs| - 1];
      var last := fs[|fs| - 1];
      var w := Without(init, status);
      assert fs == init + [last];
      assert multiset(fs) == multiset(init) + multiset{last};
      SubsequenceOfPrefix(w, init, last);
      FilterSnoc(init, last, IsNot(status));
      if last != status then
        var r := w + [last];
        assert r[..|r| - 1] == w;
        r
      else w
  }

  /** `handleStatusChange`: drop the status if present, otherwise append it. */
  function Toggle(fs: seq<string>, status: string): (r: seq<string>)
    ensures status in fs ==> r == Without(fs, status)
    ensures status !in fs ==> r == fs + [status]
    ensures status in r <==> status !in fs
    ensures forall x :: x != status ==> (x in r <==> x in fs)
  {
    if status in fs then Without(fs, status) else fs + [status]
  }

  /** The other statuses keep their relative order. */
  lemma ToggleKeepsOthers(fs: seq<string>, status: string)
    ensures Without(Toggle(fs, status), status) == Without(fs, status)
  {
    if status !in fs {
      assert (fs + [status])[..|fs|] == fs;
    }
  }

  lemma {:induction false} WithoutKeepsNoDup(fs: seq<string>, status: string)
    requires NoDup(fs)
    ensures NoDup(Without(fs, status))
    decreases |fs|
  {
    if |fs| > 0 {
      var init := fs[..|fs| - 1];
      assert forall x :: x in init ==> x in fs;
      assert NoDup(init);
      WithoutKeepsNoDup(init, status);
      assert fs[|fs| - 1] !in init;
    }
  }

  /** A list without repeats stays without repeats. */
  lemma ToggleKeepsNoDup(fs: seq<string>, status: string)
    requires NoDup(fs)
    ensures NoDup(Toggle(fs, status))
  {
    if status in fs {
      WithoutKeepsNoDup(fs, status);
    }
  }

  /**
   * Toggling twice from absence restores the list exactly; from presence
   * it restores the same statuses (the status moves to the end).
   */
  lemma ToggleTwice(fs: seq<string>, status: string)
    ensures status !in fs ==> Toggle(Toggle(fs, status), status) == fs
    ensures forall x :: x in Toggle(Toggle(fs, status), status) <==> x in fs
  {
    if status !in fs {
      assert (fs + [status])[..|fs|] == fs;
    }
  }
}
