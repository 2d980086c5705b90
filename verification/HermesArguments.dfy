/** Renaming the arguments of a tool call: when it keeps every one of them. */
module HermesArguments {
  import opened Wrappers
  import opened OrderedDict
  import opened HermesModel

  function Renamed(name: string, args: Dict<string, Json>): Dict<string, Json> {
    seq(|args|, i requires 0 <= i < |args| => (CanonicalKey(name, args[i].0), args[i].1))
  }

  ghost predicate RenamedApart(name: string, args: Dict<string, Json>) {
    forall i, j :: 0 <= i < j < |args| ==> CanonicalKey(name, args[i].0) != CanonicalKey(name, args[j].0)
  }

  /** Some argument is called k after the renaming. */
  ghost predicate GivenAs(name: string, args: Dict<string, Json>, k: string) {
    exists i :: 0 <= i < |args| && CanonicalKey(name, args[i].0) == k
  }

  lemma GivenAsGrows(name: string, args: Dict<string, Json>, k: string)
    requires args != []
    ensures GivenAs(name, args, k)
       <==> GivenAs(name, args[..|args| - 1], k) || CanonicalKey(name, args[|args| - 1].0) == k
  {
    var n := |args| - 1;
    assert forall i :: 0 <= i < n ==> args[..n][i] == args[i];
  }

  lemma {:induction false} MappedKey(name: string, args: Dict<string, Json>, k: string)
    ensures Get(MappedArgs(name, args), k).Some? <==> GivenAs(name, args, k)
  {
    if args == [] {
    } else {
      var n := |args| - 1;
      MappedKey(name, args[..n], k);
      GivenAsGrows(name, args, k);
      GetAfterPut(MappedArgs(name, args[..n]), CanonicalKey(name, args[n].0), args[n].1, k);
    }
  }

  lemma {:induction false} MappedArgsFacts(name: string, args: Dict<string, Json>)
    ensures DistinctKeys(MappedArgs(name, args))
    ensures |MappedArgs(name, args)| <= |args|
  {
    if args == [] {
    } else {
      var n := |args| - 1;
      MappedArgsFacts(name, args[..n]);
      var before, key := MappedArgs(name, args[..n]), CanonicalKey(name, args[n].0);
      PutKeepsDistinct(before, key, args[n].1);
      PutSize(before, key, args[n].1);
    }
  }

  /** Of several arguments that get one name, the last one's value is kept. */
  lemma {:induction false} LastArgumentWins(name: string, args: Dict<string, Json>, i: nat)
    requires i < |args|
    requires forall j :: i < j < |args| ==> CanonicalKey(name, args[j].0) != CanonicalKey(name, args[i].0)
    ensures Get(MappedArgs(name, args), CanonicalKey(name, args[i].0)) == Some(args[i].1)
  {
    var n := |args| - 1;
    GetAfterPut(MappedArgs(name, args[..n]), CanonicalKey(name, args[n].0), args[n].1, CanonicalKey(name, args[i].0));
    if i == n {
    } else {
      LastArgumentWins(name, args[..n], i);
    }
  }

  lemma RenamedApartGrows(name: string, args: Dict<string, Json>)
    requires args != []
    ensures var n := |args| - 1;
            (RenamedApart(name, args)
             <==> RenamedApart(name, args[..n]) && !GivenAs(name, args[..n], CanonicalKey(name, args[n].0)))
  {
    var n := |args| - 1;
    assert forall i :: 0 <= i < n ==> args[..n][i] == args[i];
  }

  lemma RenamedGrows(name: string, args: Dict<string, Json>)
    requires args != []
    ensures var n := |args| - 1;
            Renamed(name, args) == Renamed(name, args[..n]) + [(CanonicalKey(name, args[n].0), args[n].1)]
  {
  }

  lemma PutSize(d: Dict<string, Json>, key: string, v: Json)
    ensures |Put(d, key, v)| == if Get(d, key).Some? then |d| else |d| + 1
  {
    PutKeys(d, key, v);
    assert |Keys(Put(d, key, v))| == |Put(d, key, v)| && |Keys(d)| == |d|;
  }

  /** Renaming keeps every argument, in order and with its value, exactly when no two names fall together. */
  lemma {:induction false} RenamingIsLossless(name: string, args: Dict<string, Json>)
    ensures MappedArgs(name, args) == Renamed(name, args) <==> RenamedApart(name, args)
    ensures |MappedArgs(name, args)| == |args| <==> RenamedApart(name, args)
  {
    if args == [] {
    } else {
      var n := |args| - 1;
      RenamingIsLossless(name, args[..n]);
      MappedArgsFacts(name, args[..n]);
      RenamedApartGrows(name, args);
      RenamedGrows(name, args);
      var before, key := MappedArgs(name, args[..n]), CanonicalKey(name, args[n].0);
      MappedKey(name, args[..n], key);
      PutSize(before, key, args[n].1);
      if Get(before, key).None? {
        PutNew(before, key, args[n].1);
        SameEnds(before, Renamed(name, args[..n]), (key, args[n].1));
      }
    }
  }

  lemma SameEnds(s: Dict<string, Json>, t: Dict<string, Json>, x: (string, Json))
    ensures s + [x] == t + [x] <==> s == t
  {
    assert (s + [x])[..|s + [x]| - 1] == s && (t + [x])[..|t + [x]| - 1] == t;
  }

  lemma CanonicalKeyClash(name: string, k: string, k': string)
    requires k != k'
    ensures CanonicalKey(name, k) == CanonicalKey(name, k') <==>
              (CanonicalKey(name, k) == k' && CanonicalKey(name, k') == k')
              || (CanonicalKey(name, k') == k && CanonicalKey(name, k) == k)
  {
  }

  /** Two different argument names fall together only when one is what the other is renamed to. */
  lemma RenamedApartIffNoClash(name: string, args: Dict<string, Json>)
    requires DistinctKeys(args)
    ensures RenamedApart(name, args) <==>
              forall i, j :: 0 <= i < |args| && 0 <= j < |args| && i != j ==> CanonicalKey(name, args[i].0) != args[j].0
  {
    forall i, j | 0 <= i < |args| && 0 <= j < |args| && i != j ensures args[i].0 != args[j].0 {
      assert if i < j then args[i].0 != args[j].0 else args[j].0 != args[i].0;
      CanonicalKeyClash(name, args[i].0, args[j].0);
    }
    if RenamedApart(name, args) {
      forall i, j | 0 <= i < |args| && 0 <= j < |args| && i != j
        ensures CanonicalKey(name, args[i].0) != args[j].0
      {
        RenameTwice(name, args[i].0);
        assert if i < j then CanonicalKey(name, args[i].0) != CanonicalKey(name, args[j].0)
               else CanonicalKey(name, args[j].0) != CanonicalKey(name, args[i].0);
      }
    } else {
      var i, j :| 0 <= i < j < |args| && CanonicalKey(name, args[i].0) == CanonicalKey(name, args[j].0);
      CanonicalKeyClash(name, args[i].0, args[j].0);
    }
  }

  lemma RenameTwice(name: string, k: string)
    ensures CanonicalKey(name, CanonicalKey(name, k)) == CanonicalKey(name, k)
  {
  }
}
