/** The `github` settings of one config, carried into another key by key. */
module GithubSettings {
  import opened Options
  import opened DesktopState

  datatype Key = Enabled | PollSecs | Stacks | ShareIdentity | AgentIdentity | ApiUrl | OauthClientId

  type Github = map<Key, string>

  function Setting(github: Option<Github>, key: Key): Option<string> {
    if github.Some? && key in github.value then Some(github.value[key]) else None
  }

  predicate Carries(here: Option<Github>, there: Option<Github>, key: Key) {
    Setting(here, key).None? && Setting(there, key).Some?
  }

  function Keys(): seq<Key> {
    [Enabled, PollSecs, Stacks, ShareIdentity, AgentIdentity, ApiUrl, OauthClientId]
  }

  /** The keys to carry, in the order of the settings. */
  function CarriedOf(here: Option<Github>, there: Option<Github>, keys: seq<Key>): seq<Key> {
    if keys == [] then []
    else (if Carries(here, there, keys[0]) then [keys[0]] else []) + CarriedOf(here, there, keys[1..])
  }

  function CarriedKeys(here: Option<Github>, there: Option<Github>): seq<Key> {
    CarriedOf(here, there, Keys())
  }

  /** This machine's settings with the carried ones; no block appears when nothing was carried. */
  function WithCarried(here: Option<Github>, there: Option<Github>): Option<Github> {
    if CarriedKeys(here, there) == [] then here
    else
      Some((if there.Some? then there.value else map[]) + Own(here))
  }

  lemma KeysAre()
    ensures var keys := Keys();
            && |keys| == 7 && keys[0] == Enabled && keys[1] == PollSecs && keys[2] == Stacks && keys[3] == ShareIdentity
            && keys[4] == AgentIdentity && keys[5] == ApiUrl && keys[6] == OauthClientId
  {}

  lemma {:induction false} CarriedAre(here: Option<Github>, there: Option<Github>, keys: seq<Key>, key: Key)
    ensures key in CarriedOf(here, there, keys) <==> key in keys && Carries(here, there, key)
  {
    hide Carries;
    if keys != [] { CarriedAre(here, there, keys[1..], key); }
  }

  lemma EveryKey(key: Key)
    ensures key in Keys()
  {
    KeysAre();
  }

  /** A key set here never changes, a key only the private config sets comes over, and exactly those are reported. */
  lemma GithubKeys(here: Option<Github>, there: Option<Github>, key: Key)
    ensures Setting(WithCarried(here, there), key)
         == if Setting(here, key).Some? then Setting(here, key) else Setting(there, key)
    ensures key in CarriedKeys(here, there) <==> Carries(here, there, key)
    ensures WithCarried(here, there).None? ==> here.None?
  {
    EveryKey(key);
    CarriedAre(here, there, Keys(), key);
    hide CarriedOf;
  }

  /** Carrying again carries nothing. */
  lemma GithubAgain(here: Option<Github>, there: Option<Github>)
    ensures CarriedKeys(WithCarried(here, there), there) == []
    ensures WithCarried(WithCarried(here, there), there) == WithCarried(here, there)
  {
    var after := WithCarried(here, there);
    var again := CarriedKeys(after, there);
    if again != [] {
      var key := again[0];
      GithubKeys(after, there, key);
      GithubKeys(here, there, key);
    }
  }

  /** The configuration being edited. */
  class GlobalConfig {
    var domains: map<string, Entry>
    var github: Option<Github>

    constructor (domains: map<string, Entry>, github: Option<Github>)
      ensures this.domains == domains && this.github == github
    {
      this.domains := domains;
      this.github := github;
    }

    method CarryGithub(there: Option<Github>) returns (carried: seq<Key>)
      modifies this`github
      ensures github == WithCarried(old(github), there)
      ensures carried == CarriedKeys(old(github), there)
    {
      hide Carries, Block, CarriedOf, Keys, WithCarried, TakenTo;
      KeysAre();
      carried := [];
      if there.None? {
        NothingToCarry(github);
        return;
      }
      var hadBlock := github.Some?;
      var block: Github := if hadBlock then github.value else map[];
      BlockStart(github, there);
      block, carried := Take(block, there, Enabled, carried, github, 0);
      block, carried := Take(block, there, PollSecs, carried, github, 1);
      block, carried := Take(block, there, Stacks, carried, github, 2);
      block, carried := Take(block, there, ShareIdentity, carried, github, 3);
      block, carried := Take(block, there, AgentIdentity, carried, github, 4);
      block, carried := Take(block, there, ApiUrl, carried, github, 5);
      block, carried := Take(block, there, OauthClientId, carried, github, 6);
      BlockAll(github, there);
      AllTaken(github, there, block, carried);
      github := if !hadBlock && carried == [] then None else Some(block);
    }
  }

  function Own(here: Option<Github>): Github {
    if here.Some? then here.value else map[]
  }

  /** The keys carried of the first `k`, and the block with them. */
  ghost predicate TakenTo(here: Option<Github>, there: Option<Github>, k: nat, block: Github, carried: seq<Key>)
    requires there.Some? && k <= |Keys()|
  {
    block == Block(Own(here), there.value, Keys()[..k]) && carried + CarriedOf(here, there, Keys()[k..]) == CarriedKeys(here, there)
  }

  lemma AllTaken(here: Option<Github>, there: Option<Github>, block: Github, carried: seq<Key>)
    requires there.Some? && TakenTo(here, there, |Keys()|, block, carried)
    ensures block == Block(Own(here), there.value, Keys()) && carried == CarriedKeys(here, there)
  {
    hide Block, CarriedKeys, Keys;
    assert Keys()[..|Keys()|] == Keys();
    assert Keys()[|Keys()|..] == [];
    NoneOf(here, there);
    assert carried + [] == carried;
  }

  /** Set the key when it is unset, and note it as carried. */
  method Take(block: Github, there: Option<Github>, key: Key, carried: seq<Key>, ghost here: Option<Github>, ghost k: nat)
    returns (block': Github, carried': seq<Key>)
    requires there.Some? && k < |Keys()| && key == Keys()[k] && TakenTo(here, there, k, block, carried)
    ensures TakenTo(here, there, k + 1, block', carried')
  {
    hide Carries, Block, Keys, CarriedOf;
    block', carried' := block, carried;
    CarriedNext(here, there, Keys(), k, carried);
    BlockNext(here, there, k);
    if key !in block && key in there.value {
      block' := block[key := there.value[key]];
      carried' := carried + [key];
    }
  }

  /** The block once these settings were taken. */
  ghost function Block(own: Github, there: Github, keys: seq<Key>): Github {
    own + map key | key in keys && key in there && key !in own :: there[key]
  }

  lemma CarriedNext(here: Option<Github>, there: Option<Github>, keys: seq<Key>, k: nat, carried: seq<Key>)
    requires k < |keys|
    ensures carried + CarriedOf(here, there, keys[k..])
         == (if Carries(here, there, keys[k]) then carried + [keys[k]] else carried) + CarriedOf(here, there, keys[k + 1..])
  {
    hide Carries;
    assert keys[k..][0] == keys[k] && keys[k..][1..] == keys[k + 1..];
  }

  lemma NothingToCarry(here: Option<Github>)
    ensures CarriedKeys(here, None) == [] && WithCarried(here, None) == here
  {
    if CarriedKeys(here, None) != [] { CarriedAre(here, None, Keys(), CarriedKeys(here, None)[0]); }
  }

  lemma BlockStart(here: Option<Github>, there: Option<Github>)
    requires there.Some?
    ensures TakenTo(here, there, 0, Own(here), [])
  {
    hide Keys, CarriedOf;
    assert Keys()[0..] == Keys() && Keys()[..0] == [];
  }

  lemma BlockMore(own: Github, there: Github, keys: seq<Key>, key: Key)
    requires key !in keys
    ensures key in Block(own, there, keys) <==> key in own
    ensures Block(own, there, keys + [key])
         == if key !in own && key in there then Block(own, there, keys)[key := there[key]] else Block(own, there, keys)
  {
    hide Block;
    var before, after := Block(own, there, keys), Block(own, there, keys + [key]);
    var next := if key !in own && key in there then before[key := there[key]] else before;
    BlockHas(own, there, keys, key);
    forall k
      ensures k in after <==> k in next
      ensures k in after ==> after[k] == next[k]
    {
      BlockHas(own, there, keys, k);
      BlockHas(own, there, keys + [key], k);
    }
    assert after == next;
  }

  lemma BlockHas(own: Github, there: Github, keys: seq<Key>, k: Key)
    ensures var block := Block(own, there, keys);
            && (k in block <==> k in own || (k in keys && k in there))
            && (k in block ==> block[k] == if k in own then own[k] else there[k])
  {}

  lemma BlockNext(here: Option<Github>, there: Option<Github>, k: nat)
    requires k < |Keys()| && there.Some?
    ensures var own, key, keys := Own(here), Keys()[k], Keys();
            var block := Block(own, there.value, keys[..k]);
            && (key !in block && key in there.value <==> Carries(here, there, key))
            && Block(own, there.value, keys[..k + 1])
               == (if key !in block && key in there.value then block[key := there.value[key]] else block)
  {
    KeysDistinct(k);
    hide Keys, CarriedOf;
    var keys := Keys();
    BlockMore(Own(here), there.value, keys[..k], keys[k]);
    assert keys[..k + 1] == keys[..k] + [keys[k]];
    hide Block;
  }

  lemma KeysDistinct(k: nat)
    requires k < |Keys()|
    ensures Keys()[k] !in Keys()[..k]
  {}

  lemma BlockAll(here: Option<Github>, there: Option<Github>)
    requires there.Some?
    ensures var block := Block(Own(here), there.value, Keys());
            WithCarried(here, there) == if here.None? && CarriedKeys(here, there) == [] then None else Some(block)
  {
    hide Keys, CarriedOf;
    var block := Block(Own(here), there.value, Keys());
    forall key: Key
      ensures key in Keys()
    {
      EveryKey(key);
    }
    assert block == there.value + Own(here);
    if CarriedKeys(here, there) == [] {
      forall key: Key
        ensures key in there.value ==> key in Own(here)
      {
        GithubKeys(here, there, key);
      }
      assert block == Own(here);
    }
  }

  lemma NoneOf(here: Option<Github>, there: Option<Github>)
    ensures CarriedOf(here, there, []) == []
  {}
}
