/** The built-in coins, and what happens when one is configured twice. */
module Coins {
  import opened Bytes
  import opened Wrappers
  import opened AuxTree
  import opened Work
  import opened Jobs

  datatype Coin = Litecoin | Dogecoin {
    function Symbol(): string {
      match this case Litecoin => "LTC" case Dogecoin => "DOGE"
    }

    /** The version to mine given a template's: an aux chain adds its id and the auxpow flag. */
    function BlockVersion(version: i32): i32 {
      match this case Litecoin => version case Dogecoin => AuxBlockVersion(version, DOGE_CHAIN_ID)
    }
  }

  const DOGE_CHAIN_ID: u32 := 98

  function Lower(key: string): (r: string)
    ensures |r| == |key|
  {
    seq(|key|, i requires 0 <= i < |key| => if 'A' <= key[i] <= 'Z' then key[i] - 'A' + 'a' else key[i])
  }

  /** Look a coin up by its config key, whatever its case. */
  function Builtin(key: string): Option<Coin> {
    if Lower(key) == "ltc" then Some(Litecoin) else if Lower(key) == "doge" then Some(Dogecoin) else None
  }

  /** A coin is found by its key in any mix of cases. */
  lemma BuiltinIff(key: string)
    ensures Builtin(key) == Some(Litecoin)
       <==> |key| == 3 && key[0] in {'l', 'L'} && key[1] in {'t', 'T'} && key[2] in {'c', 'C'}
    ensures Builtin(key) == Some(Dogecoin)
       <==> |key| == 4 && key[0] in {'d', 'D'} && key[1] in {'o', 'O'} && key[2] in {'g', 'G'} && key[3] in {'e', 'E'}
  {
    if |key| == 3 {
      LowerAt(key, 0, 'l', 'L');
      LowerAt(key, 1, 't', 'T');
      LowerAt(key, 2, 'c', 'C');
    }
    if |key| == 4 {
      LowerAt(key, 0, 'd', 'D');
      LowerAt(key, 1, 'o', 'O');
      LowerAt(key, 2, 'g', 'G');
      LowerAt(key, 3, 'e', 'E');
    }
  }

  lemma LowerAt(key: string, i: nat, small: char, large: char)
    requires i < |key| && 'A' <= large <= 'Z' && small == large - 'A' + 'a'
    ensures Lower(key)[i] == small <==> key[i] in {small, large}
  {
  }

  /** Dogecoin blocks are mined under chain id 98, with the auxpow flag and the base version's low byte. */
  lemma DogeVersion(version: i32)
    ensures var v := Dogecoin.BlockVersion(version); ChainIdOf(v) == 98 && v % 0x1_0000 == 0x100 + version % 0x100
  {
    VersionKeepsChainId(version, 98);
    VersionBits(version, 98);
    hide AuxBlockVersion, ChainIdOf;
  }

  /** One coin under two spellings: both keys are valid and differ, both chains get templates of the
      same coin, and then building the aux blocks panics, whatever versions the nodes ask for. */
  lemma TwoSpellingsPanic(
    h: Hashes, parent: WorkTemplate, t: WorkTemplate, u: WorkTemplate, v: i32, w: i32, clean: bool, payouts: Payouts)
    requires t.coin == u.coin == Dogecoin.Symbol()
    requires t.version == Dogecoin.BlockVersion(v) && u.version == Dogecoin.BlockVersion(w)
    requires Paid(t, payouts.aux) && Fits(t, payouts.aux) && Fits(u, payouts.aux)
    ensures "doge" != "DOGE" && Builtin("doge") == Builtin("DOGE") == Some(Dogecoin)
    ensures BuildAux(h, MergedWork(parent, [t, u], clean), payouts).Panicked?
  {
    assert Lower("doge") == "doge" && Lower("DOGE") == "doge";
    VersionKeepsChainId(v, DOGE_CHAIN_ID);
    VersionKeepsChainId(w, DOGE_CHAIN_ID);
    hide AuxBlockVersion, ChainIdOf, BuildAux;
    var work := MergedWork(parent, [t, u], clean);
    BuildPanicsIff(h, work, payouts);
    assert AreTwins(work.aux[0], work.aux[1], payouts.aux);
  }
}
