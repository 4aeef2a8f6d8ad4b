/**
 * The comma-separated key list that the sensors manager writes to its log
 * (`dictionary_keys_to_string`), and its inverse.
 */
module Text {

  const Separator: string := ", "

  /** The keys in order, with `Separator` between neighbours, built from the left. */
  function Join(keys: seq<string>): string
  {
    if |keys| == 0 then ""
    else if |keys| == 1 then keys[0]
    else Join(keys[..|keys| - 1]) + Separator + keys[|keys| - 1]
  }

  predicate SeparatorAt(s: string, i: int) {
    0 <= i && i + 1 < |s| && s[i] == ',' && s[i + 1] == ' '
  }

  /** The position of the first `Separator` in `s`, or `|s|` when there is none. */
  function FirstSeparator(s: string): (i: nat)
    ensures i <= |s|
    ensures i < |s| ==> SeparatorAt(s, i)
    ensures forall j :: 0 <= j < i ==> !SeparatorAt(s, j)
  {
    if |s| < 2 then |s|
    else if s[0] == ',' && s[1] == ' ' then 0
    else
      var i := 1 + FirstSeparator(s[1..]);
      assert forall j :: 1 <= j < i ==> (SeparatorAt(s, j) <==> SeparatorAt(s[1..], j - 1));
      i
  }

  /** Splitting at every `Separator`, as Python's `s.split(", ")` does. */
  function Split(s: string): (parts: seq<string>)
    ensures |parts| >= 1
    decreases |s|
  {
    var i := FirstSeparator(s);
    if i == |s| then [s] else [s[..i]] + Split(s[i + 2..])
  }

  predicate NoComma(keys: seq<string>) {
    forall k :: k in keys ==> ',' !in k
  }

  /** Joining `k0, k1, ...` is `k0`, a separator, and the join of the rest. */
  lemma {:induction false} JoinCons(keys: seq<string>)
    requires |keys| >= 2
    ensures Join(keys) == keys[0] + Separator + Join(keys[1..])
    decreases |keys|
  {
    var n := |keys|;
    if n > 2 {
      var init := keys[..n - 1];
      JoinCons(init);
      assert init[1..] == keys[1..][..n - 2];
      assert keys[1..][n - 2] == keys[n - 1];
    } else {
      assert keys[..1] == [keys[0]];
      assert keys[1..] == [keys[1]];
    }
  }

  /**
   * The joined string starts with the first key and ends with the last one,
   * so it never starts or ends with a separator of its own making.
   */
  lemma {:induction false} JoinBoundaries(keys: seq<string>)
    requires keys != []
    ensures keys[0] <= Join(keys)
    ensures var s := Join(keys); var last := keys[|keys| - 1];
            |last| <= |s| && s[|s| - |last|..] == last
  {
    var n := |keys|;
    if n >= 2 {
      JoinCons(keys);
      var s := Join(keys);
      var rest := Join(keys[..n - 1]);
      assert s == rest + Separator + keys[n - 1];
      assert s[|s| - |keys[n - 1]|..] == keys[n - 1];
    }
  }

  /** A key without a comma holds no separator, so the first separator after it is the one that follows it. */
  lemma FirstSeparatorAfterKey(k: string, rest: string)
    requires ',' !in k
    ensures FirstSeparator(k) == |k|
    ensures FirstSeparator(k + Separator + rest) == |k|
  {
    var s := k + Separator + rest;
    forall j | 0 <= j < |k| ensures !SeparatorAt(k, j) && !SeparatorAt(s, j) {
      assert k[j] in k;
      assert s[j] == k[j];
    }
    assert SeparatorAt(s, |k|);
  }

  /** Splitting the joined keys gives the keys back, whenever no key holds a comma. */
  lemma {:induction false} SplitJoin(keys: seq<string>)
    requires keys != []
    requires NoComma(keys)
    ensures Split(Join(keys)) == keys
    decreases |keys|
  {
    var k0 := keys[0];
    assert k0 in keys;
    if |keys| == 1 {
      FirstSeparatorAfterKey(k0, "");
    } else {
      JoinCons(keys);
      var rest := Join(keys[1..]);
      var s := k0 + Separator + rest;
      FirstSeparatorAfterKey(k0, rest);
      assert s[..|k0|] == k0;
      assert s[|k0| + 2..] == rest;
      assert forall k :: k in keys[1..] ==> k in keys;
      SplitJoin(keys[1..]);
      assert keys == [k0] + keys[1..];
    }
  }
}
