/** macaroons/mint.go and macaroons/validate.go: the loop that turns the
    repeated `key=value` flags (caveats, conditions) into a map. */
module MacaroonsPairs {
  import opened Errors
  import opened Strs

  /** The key of a flag: the text before its first `=`. */
  function KeyOf(item: string): string {
    Cut(item, '=').before
  }

  /** The value of a flag: the text after its first `=`. */
  function ValueOf(item: string): string {
    Cut(item, '=').after
  }

  /** The error for a flag with no `=`; `noun` is "caveat" or "condition". */
  function FormatError(noun: string, item: string): Error {
    Failure("Invalid " + noun + " format: " + item)
  }

  /** The map the loop builds from `items`, taken in order. */
  function Pairs(items: seq<string>, noun: string): Result<map<string, string>>
    decreases |items|
  {
    if items == [] then Ok(map[])
    else
      var last := items[|items| - 1];
      match Pairs(items[..|items| - 1], noun)
      case Err(e) => Err(e)
      case Ok(m) =>
        if '=' !in last then Err(FormatError(noun, last))
        else Ok(m[KeyOf(last) := ValueOf(last)])
  }

  /** The loop: a flag without `=` stops it at once. */
  method ParsePairs(items: seq<string>, noun: string) returns (r: Result<map<string, string>>)
    ensures r == Pairs(items, noun)
  {
    var m := map[];
    for i := 0 to |items|
      invariant Pairs(items[..i], noun) == Ok(m)
    {
      var c := Cut(items[i], '=');
      assert items[..i + 1][..i] == items[..i];
      if !c.found {
        ErrorPersists(items[..i + 1], items[i + 1..], noun);
        assert items[..i + 1] + items[i + 1..] == items;
        return Err(FormatError(noun, items[i]));
      }
      m := m[c.before := c.after];
    }
    assert items[..|items|] == items;
    r := Ok(m);
  }

  // ---------------------------------------------------------------------
  // Properties

  /** Once a flag has failed, later flags change nothing. */
  lemma {:induction false} ErrorPersists(p: seq<string>, q: seq<string>, noun: string)
    requires Pairs(p, noun).Err?
    ensures Pairs(p + q, noun) == Pairs(p, noun)
    decreases |q|
  {
    if q != [] {
      var init := q[..|q| - 1];
      ErrorPersists(p, init, noun);
      assert (p + q)[..|p + q| - 1] == p + init;
      assert Pairs(p + init, noun).Err?;
    } else {
      assert p + q == p;
    }
  }

  /** The loop fails exactly when some flag has no `=`, and then with the
      error naming the first such flag. */
  lemma {:induction false} FirstBadFlag(items: seq<string>, noun: string)
    ensures Pairs(items, noun).Err? <==> exists i | 0 <= i < |items| :: '=' !in items[i]
    ensures Pairs(items, noun).Err? ==>
      exists i | 0 <= i < |items| :: '=' !in items[i]
        && (forall j | 0 <= j < i :: '=' in items[j])
        && Pairs(items, noun).error == FormatError(noun, items[i])
    decreases |items|
  {
    if items != [] {
      var init := items[..|items| - 1];
      FirstBadFlag(init, noun);
      assert forall i | 0 <= i < |init| :: init[i] == items[i];
    }
  }

  /** When the loop succeeds, the keys are exactly the flags' keys. */
  lemma {:induction false} KeysAreFlagKeys(items: seq<string>, noun: string)
    requires Pairs(items, noun).Ok?
    ensures forall k :: k in Pairs(items, noun).value <==> exists i | 0 <= i < |items| :: KeyOf(items[i]) == k
    decreases |items|
  {
    if items != [] {
      var init := items[..|items| - 1];
      var last := items[|items| - 1];
      assert Pairs(init, noun).Ok?;
      KeysAreFlagKeys(init, noun);
      var m := Pairs(init, noun).value;
      assert Pairs(items, noun).value == m[KeyOf(last) := ValueOf(last)];
      forall k
        ensures k in Pairs(items, noun).value <==> exists i | 0 <= i < |items| :: KeyOf(items[i]) == k
      {
        if k in m {
          var i :| 0 <= i < |init| && KeyOf(init[i]) == k;
          assert items[i] == init[i];
        }
        if exists i | 0 <= i < |items| :: KeyOf(items[i]) == k {
          var i :| 0 <= i < |items| && KeyOf(items[i]) == k;
          if i < |init| {
            assert init[i] == items[i];
          }
        }
      }
    }
  }

  /** When the loop succeeds, a flag whose key no later flag repeats gives
      that key its value: the last duplicate wins. */
  lemma {:induction false} LastFlagWins(items: seq<string>, noun: string, i: nat)
    requires Pairs(items, noun).Ok? && i < |items|
    requires forall j | i < j < |items| :: KeyOf(items[j]) != KeyOf(items[i])
    ensures KeyOf(items[i]) in Pairs(items, noun).value
    ensures Pairs(items, noun).value[KeyOf(items[i])] == ValueOf(items[i])
    decreases |items|
  {
    var init := items[..|items| - 1];
    var last := items[|items| - 1];
    assert Pairs(init, noun).Ok?;
    assert Pairs(items, noun).value == Pairs(init, noun).value[KeyOf(last) := ValueOf(last)];
    if i < |init| {
      assert init[i] == items[i];
      assert forall j | i < j < |init| :: init[j] == items[j];
      LastFlagWins(init, noun, i);
    }
  }

  /** No flags give an empty map; a value keeps every `=` after the first
      and may be empty. */
  lemma SplitAtFirstEquals(items: seq<string>, noun: string, key: string, value: string)
    requires '=' !in key
    ensures Pairs([], noun) == Ok(map[])
    ensures Pairs([key + "=" + value], noun) == Ok(map[key := value])
  {
    var item := key + "=" + value;
    assert item == key + ['='] + value;
    assert '=' in item by { assert item[|key|] == '='; }
    CutAtFirst(key, value);
    assert [item][..0] == [];
  }

  /** Cutting `key=value` with no `=` in the key gives back both parts. */
  lemma {:induction false} CutAtFirst(key: string, value: string)
    requires '=' !in key
    ensures Cut(key + "=" + value, '=') == CutResult(key, value, true)
    decreases |key|
  {
    var s := key + "=" + value;
    if key == [] {
      assert s == ['='] + value;
    } else {
      assert s[0] == key[0] != '=';
      assert s[1..] == key[1..] + "=" + value;
      CutAtFirst(key[1..], value);
      assert [s[0]] + key[1..] == key;
    }
  }
}
