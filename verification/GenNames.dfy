/** The names a commit gives its generations. */
module GenNames {
  import opened Text
  import opened Radix
  import opened Ulid
  import WarmCache

  function GenName(bin: seq<nat>): string {
    "g-" + Lower(Encode(bin))
  }

  /** A fresh identifier makes a name of the shape the cleaners look for, never one of
      their own rubbish names. */
  lemma IsGenName(bin: seq<nat>)
    requires |bin| == 16 && Digits(256, bin)
    ensures WarmCache.IsGen(GenName(bin)) && !WarmCache.IsTrash(GenName(bin))
  {
    var name, id := GenName(bin), Encode(bin);
    assert name[2..] == Lower(id);
    forall k | 0 <= k < |id| ensures '0' <= Lower(id)[k] <= '9' || 'a' <= Lower(id)[k] <= 'z' {
      var d := DigitsOf(32, Num(256, bin), WIDTH)[k];
      assert d in DigitsOf(32, Num(256, bin), WIDTH);
      LetterAt(d);
    }
    WarmCache.TrashIsApart(name);
  }

  /** Different bytes, different generations. */
  lemma GenNamesDiffer(a: seq<nat>, b: seq<nat>)
    requires |a| == |b| == 16 && Digits(256, a) && Digits(256, b) && a != b
    ensures GenName(a) != GenName(b)
  {
    Distinct(a, b);
    assert GenName(a)[2..] == Lower(Encode(a)) && GenName(b)[2..] == Lower(Encode(b));
  }
}
