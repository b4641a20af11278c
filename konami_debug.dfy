/** The debug key listener: two counters follow two ten-key sequences; completing the first
    exports local storage, completing the second opens the import picker. */
module KonamiDebug {

  const KonamiCode: seq<string> :=
    ["ArrowUp", "ArrowUp", "ArrowDown", "ArrowDown", "ArrowLeft", "ArrowRight", "ArrowLeft", "ArrowRight", "b", "a"]

  const ImportCode: seq<string> :=
    ["ArrowUp", "ArrowUp", "ArrowDown", "ArrowDown", "ArrowLeft", "ArrowRight", "ArrowLeft", "ArrowRight", "a", "b"]

  datatype Step = Step(index: nat, fired: bool)

  /** One key against one counter: a matching key advances it and completing the sequence fires
      and resets it; any other key resets it without looking at the first key again. */
  function Advance(code: seq<string>, index: nat, key: string): (r: Step)
    requires index < |code|
    ensures r.index < |code|
    ensures r.fired ==> r.index == 0 && key == code[|code| - 1] && index == |code| - 1
    ensures key == code[index] && index + 1 < |code| ==> r == Step(index + 1, false)
    ensures key != code[index] ==> r == Step(0, false)
  {
    if key == code[index] then
      if index + 1 == |code| then Step(0, true) else Step(index + 1, false)
    else Step(0, false)
  }

  /** The counter after the keys typed so far. */
  function Index(code: seq<string>, keys: seq<string>): (i: nat)
    requires |code| > 0
    ensures i < |code|
  {
    if |keys| == 0 then 0 else Advance(code, Index(code, keys[..|keys| - 1]), keys[|keys| - 1]).index
  }

  /** Whether the last of `keys` completes the sequence. */
  predicate Fired(code: seq<string>, keys: seq<string>)
    requires |code| > 0 && |keys| > 0
  {
    Advance(code, Index(code, keys[..|keys| - 1]), keys[|keys| - 1]).fired
  }

  /** The counter records how much of the sequence the most recent keys spell. */
  lemma {:induction false} IndexIsTypedPrefix(code: seq<string>, keys: seq<string>)
    requires |code| > 0
    ensures Index(code, keys) <= |keys|
    ensures keys[|keys| - Index(code, keys)..] == code[..Index(code, keys)]
  {
    if |keys| > 0 {
      var front := keys[..|keys| - 1];
      IndexIsTypedPrefix(code, front);
      var i := Index(code, front);
      var r := Advance(code, i, keys[|keys| - 1]);
      if r.index > 0 {
        assert r.index == i + 1 && keys[|keys| - 1] == code[i];
        assert keys == front + [code[i]];
        SuffixSnoc(front, code[i], i);
        PrefixSnoc(code, i);
      }
    }
  }

  /** The last `n + 1` elements of `front + [x]` are the last `n` of `front`, then `x`. */
  lemma SuffixSnoc<T>(front: seq<T>, x: T, n: nat)
    requires n <= |front|
    ensures (front + [x])[|front| + 1 - (n + 1)..] == front[|front| - n..] + [x]
  {
  }

  /** The first `i + 1` elements are the first `i`, then element `i`. */
  lemma PrefixSnoc<T>(s: seq<T>, i: nat)
    requires i < |s|
    ensures s[..i + 1] == s[..i] + [s[i]]
  {
  }

  /** One more key moves the counter by one `Advance`. */
  lemma IndexSnoc(code: seq<string>, keys: seq<string>, key: string)
    requires |code| > 0
    ensures Index(code, keys + [key]) == Advance(code, Index(code, keys), key).index
    ensures Fired(code, keys + [key]) == Advance(code, Index(code, keys), key).fired
  {
    assert (keys + [key])[..|keys|] == keys;
  }

  /** A counter fires only when the last keys are exactly its whole sequence. */
  lemma FiredMeansSequenceTyped(code: seq<string>, keys: seq<string>)
    requires |code| > 0 && |keys| > 0
    requires Fired(code, keys)
    ensures |keys| >= |code| && keys[|keys| - |code|..] == code
  {
    var front := keys[..|keys| - 1];
    IndexIsTypedPrefix(code, front);
    var i := Index(code, front);
    assert i == |code| - 1;
    assert keys[|keys| - |code|..] == front[|front| - i..] + [keys[|keys| - 1]];
    assert code == code[..i] + [code[i]];
  }

  /** From a reset counter, a key other than the first of the sequence leaves it reset. */
  lemma StaysResetOnOtherKey(code: seq<string>, keys: seq<string>, key: string)
    requires |code| > 0 && Index(code, keys) == 0 && key != code[0]
    ensures Index(code, keys + [key]) == 0 && !Fired(code, keys + [key])
  {
    assert (keys + [key])[..|keys|] == keys;
  }

  /** After a reset by a non-first key, keys none of which is the first key never fire. */
  lemma {:induction false} NoFireWithoutFirstKey(code: seq<string>, start: seq<string>, rest: seq<string>)
    requires |code| > 0 && Index(code, start) == 0
    requires forall k :: 0 <= k < |rest| ==> rest[k] != code[0]
    ensures Index(code, start + rest) == 0
    ensures forall n :: |start| < n <= |start + rest| ==> !Fired(code, (start + rest)[..n])
    decreases |rest|
  {
    if |rest| == 0 {
      assert start + rest == start;
    } else {
      var front := rest[..|rest| - 1];
      NoFireWithoutFirstKey(code, start, front);
      assert (start + rest)[..|start + rest| - 1] == start + front;
      StaysResetOnOtherKey(code, start + front, rest[|rest| - 1]);
      assert start + rest == start + front + [rest[|rest| - 1]];
      forall n | |start| < n <= |start + rest|
        ensures !Fired(code, (start + rest)[..n])
      {
        if n < |start + rest| {
          assert (start + rest)[..n] == (start + front)[..n];
        } else {
          assert (start + rest)[..n] == start + front + [rest[|rest| - 1]];
        }
      }
    }
  }

  /** The non-restarting quirk: one extra ArrowUp before the whole sequence never exports, even
      though the keys end with the complete sequence. */
  lemma ExtraFirstKeyMissesSequence()
    ensures var keys := ["ArrowUp"] + KonamiCode;
      keys[|keys| - |KonamiCode|..] == KonamiCode &&
      forall n :: 1 <= n <= |keys| ==> !Fired(KonamiCode, keys[..n])
  {
    var keys := ["ArrowUp"] + KonamiCode;
    assert keys[1..] == KonamiCode;
    var start := keys[..3];
    assert start == ["ArrowUp", "ArrowUp", "ArrowUp"];
    assert start[..0] == [] && start[..1] == ["ArrowUp"] && start[..2] == ["ArrowUp", "ArrowUp"];
    assert Index(KonamiCode, start[..1]) == 1;
    assert Index(KonamiCode, start[..2]) == 2;
    assert Index(KonamiCode, start) == 0;
    var rest := keys[3..];
    assert rest == KonamiCode[2..];
    NoFireWithoutFirstKey(KonamiCode, start, rest);
    assert start + rest == keys;
    forall n | 1 <= n <= 3 ensures !Fired(KonamiCode, keys[..n]) {
      assert keys[..n] == start[..n];
      assert keys[..n][..n - 1] == start[..n - 1];
    }
  }

  /** The sequences share their first eight keys and differ in the last two, so the two actions
      never fire on the same key. */
  lemma ExportAndImportNeverTogether(keys: seq<string>)
    requires |keys| > 0
    ensures !(Fired(KonamiCode, keys) && Fired(ImportCode, keys))
  {
  }

  /** One counter's step in the keydown handler, which runs the same statements for each of the
      two counters. */
  method Tick(code: seq<string>, index: nat, key: string) returns (next: nat, fired: bool)
    requires index < |code|
    ensures Step(next, fired) == Advance(code, index, key)
  {
    fired := false;
    if key == code[index] {
      next := index + 1;
      if next == |code| {
        fired := true;
        next := 0;
      }
    } else {
      next := 0;
    }
  }

  class KeyListener {
    var konamiIndex: nat
    var importIndex: nat
    /** Every key seen since the listener was attached. */
    ghost var keys: seq<string>

    ghost predicate Valid()
      reads this
    {
      konamiIndex == Index(KonamiCode, keys) && importIndex == Index(ImportCode, keys)
    }

    constructor()
      ensures Valid() && keys == [] && konamiIndex == 0 && importIndex == 0
    {
      konamiIndex := 0;
      importIndex := 0;
      keys := [];
    }

    /** The keydown handler. `exported`/`imported` say whether the export or the import action
        was triggered by this key. */
    method HandleKeyDown(key: string) returns (exported: bool, imported: bool)
      requires Valid()
      modifies this
      ensures Valid() && keys == old(keys) + [key]
      ensures konamiIndex < |KonamiCode| && importIndex < |ImportCode|
      ensures exported == Fired(KonamiCode, keys) && imported == Fired(ImportCode, keys)
      ensures exported ==> konamiIndex == 0 && |keys| >= 10 && keys[|keys| - 10..] == KonamiCode
      ensures imported ==> importIndex == 0 && |keys| >= 10 && keys[|keys| - 10..] == ImportCode
    {
      ghost var konamiStep := Advance(KonamiCode, konamiIndex, key);
      ghost var importStep := Advance(ImportCode, importIndex, key);
      ghost var typed := keys + [key];
      IndexSnoc(KonamiCode, keys, key);
      IndexSnoc(ImportCode, keys, key);
      if konamiStep.fired {
        FiredMeansSequenceTyped(KonamiCode, typed);
      }
      if importStep.fired {
        FiredMeansSequenceTyped(ImportCode, typed);
      }
      keys := typed;
      konamiIndex, exported := Tick(KonamiCode, konamiIndex, key);
      importIndex, imported := Tick(ImportCode, importIndex, key);
      assert konamiIndex == konamiStep.index && exported == konamiStep.fired;
      assert importIndex == importStep.index && imported == importStep.fired;
    }
  }
}
