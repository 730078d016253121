/**
 * The NEP-5 wallet commands' decision logic: which token a user's query
 * selects, when an import is refused as a duplicate, which balances the
 * balance listing shows, and the order of the script a transfer builds.
 */
module Nep5Wallet {
  import opened Bytes
  import opened Wrappers

  /** A NEP-5 token as the wallet and the RPC node describe it. */
  datatype Token = Token(name: string, symbol: string, hash: Uint160, decimals: int, address: string)

  /**
   * Hash.StringLE(): the string form of a script hash in little-endian order.
   * Its encoding is not part of this model, so it is a parameter.
   */
  type StringLE = Uint160 -> string

  /** Errors of the token lookup. */
  datatype LookupError =
    | TokenNotFound    // "token was not found"
    | MultipleTokens   // "multiple matching tokens found"
    | RpcFailure       // an RPC call the lookup depends on failed

  // ---------------------------------------------------------------------------
  // Token selection (getMatchingTokenAux)
  // ---------------------------------------------------------------------------

  /** The query names the token by its name, symbol, address or little-endian hash string. */
  predicate Matches(t: Token, name: string, stringLE: StringLE): (m: bool)
    ensures m <==> name in {t.name, t.symbol, t.address, stringLE(t.hash)}
  {
    t.name == name || t.symbol == name || t.address == name || stringLE(t.hash) == name
  }

  /** A slot counts only when it holds a token (is not nil) and that token matches. */
  predicate SlotMatches(slot: Option<Token>, name: string, stringLE: StringLE): (m: bool)
    ensures m ==> slot.Some?
    ensures slot == None ==> !m
  {
    slot.Some? && Matches(slot.value, name, stringLE)
  }

  /** Number of matching slots. */
  function MatchCount(slots: seq<Option<Token>>, name: string, stringLE: StringLE): nat
  {
    if slots == [] then 0
    else MatchCount(slots[..|slots| - 1], name, stringLE)
         + (if SlotMatches(slots[|slots| - 1], name, stringLE) then 1 else 0)
  }

  /** The last matching slot's token, if any slot matches. */
  function LastMatch(slots: seq<Option<Token>>, name: string, stringLE: StringLE): (r: Option<Token>)
    ensures r.Some? <==> MatchCount(slots, name, stringLE) > 0
    ensures r.Some? ==> r in slots && Matches(r.value, name, stringLE)
    ensures r.Some? ==> exists i :: 0 <= i < |slots| && slots[i] == r
                          && forall j :: i < j < |slots| ==> !SlotMatches(slots[j], name, stringLE)
  {
    if slots == [] then None
    else if SlotMatches(slots[|slots| - 1], name, stringLE) then slots[|slots| - 1]
    else LastMatch(slots[..|slots| - 1], name, stringLE)
  }

  /** Reference definition of the selection: the unique match, or why there is none. */
  function SelectToken(slots: seq<Option<Token>>, name: string, stringLE: StringLE): (r: Result<Token, LookupError>)
    ensures r != Err(RpcFailure)
    ensures r.Ok? ==> Some(r.value) in slots && Matches(r.value, name, stringLE)
  {
    var count := MatchCount(slots, name, stringLE);
    if count == 0 then Err(TokenNotFound)
    else if count == 1 then Ok(LastMatch(slots, name, stringLE).value)
    else Err(MultipleTokens)
  }

  lemma {:induction false} NoMatchIff(slots: seq<Option<Token>>, name: string, stringLE: StringLE)
    ensures MatchCount(slots, name, stringLE) == 0
            <==> forall i :: 0 <= i < |slots| ==> !SlotMatches(slots[i], name, stringLE)
  {
    if slots != [] {
      var p := slots[..|slots| - 1];
      NoMatchIff(p, name, stringLE);
      assert forall i :: 0 <= i < |p| ==> p[i] == slots[i];
    }
  }

  lemma {:induction false} TwoMatchesIff(slots: seq<Option<Token>>, name: string, stringLE: StringLE)
    ensures MatchCount(slots, name, stringLE) >= 2
            <==> exists i, j :: 0 <= i < j < |slots|
                   && SlotMatches(slots[i], name, stringLE) && SlotMatches(slots[j], name, stringLE)
  {
    if slots != [] {
      var k := |slots| - 1;
      var p := slots[..k];
      TwoMatchesIff(p, name, stringLE);
      NoMatchIff(p, name, stringLE);
      assert forall i :: 0 <= i < k ==> p[i] == slots[i];
      if SlotMatches(slots[k], name, stringLE) {
        if MatchCount(p, name, stringLE) >= 1 {
          var i :| 0 <= i < |p| && SlotMatches(p[i], name, stringLE);
          assert SlotMatches(slots[i], name, stringLE) && SlotMatches(slots[k], name, stringLE);
        } else {
          forall i, j | 0 <= i < j < |slots|
            ensures !(SlotMatches(slots[i], name, stringLE) && SlotMatches(slots[j], name, stringLE))
          {
            assert p[i] == slots[i];
          }
        }
      } else {
        if MatchCount(p, name, stringLE) >= 2 {
          var i, j :| 0 <= i < j < |p| && SlotMatches(p[i], name, stringLE) && SlotMatches(p[j], name, stringLE);
          assert SlotMatches(slots[i], name, stringLE) && SlotMatches(slots[j], name, stringLE);
        } else {
          forall i, j | 0 <= i < j < |slots|
            ensures !(SlotMatches(slots[i], name, stringLE) && SlotMatches(slots[j], name, stringLE))
          {
            if j < k {
              assert p[i] == slots[i] && p[j] == slots[j];
            }
          }
        }
      }
    }
  }

  /** With exactly one match, the last match sits at an index no other slot matches beside. */
  lemma {:induction false} SingleMatchAt(slots: seq<Option<Token>>, name: string, stringLE: StringLE)
    requires MatchCount(slots, name, stringLE) == 1
    ensures exists i :: 0 <= i < |slots| && slots[i] == LastMatch(slots, name, stringLE)
              && forall j :: 0 <= j < |slots| && j != i ==> !SlotMatches(slots[j], name, stringLE)
  {
    var k := |slots| - 1;
    var p := slots[..k];
    if SlotMatches(slots[k], name, stringLE) {
      NoMatchIff(p, name, stringLE);
      assert forall j :: 0 <= j < k ==> p[j] == slots[j];
      assert slots[k] == LastMatch(slots, name, stringLE);
    } else {
      SingleMatchAt(p, name, stringLE);
      var i :| 0 <= i < |p| && p[i] == LastMatch(p, name, stringLE)
               && forall j :: 0 <= j < |p| && j != i ==> !SlotMatches(p[j], name, stringLE);
      assert slots[i] == p[i];
      forall j | 0 <= j < |slots| && j != i
        ensures !SlotMatches(slots[j], name, stringLE)
      {
        if j < k {
          assert slots[j] == p[j];
        }
      }
    }
  }

  /** The count over a prefix never exceeds the count over the whole. */
  lemma {:induction false} MatchCountPrefix(slots: seq<Option<Token>>, k: nat, name: string, stringLE: StringLE)
    requires k <= |slots|
    ensures MatchCount(slots[..k], name, stringLE) <= MatchCount(slots, name, stringLE)
    decreases |slots| - k
  {
    if k < |slots| {
      var p := slots[..|slots| - 1];
      MatchCountPrefix(p, k, name, stringLE);
      assert p[..k] == slots[..k];
    } else {
      assert slots[..k] == slots;
    }
  }

  /** "token was not found" exactly when no slot holds a matching token; always so with no slots. */
  lemma SelectNotFound(slots: seq<Option<Token>>, name: string, stringLE: StringLE)
    ensures SelectToken(slots, name, stringLE) == Err(TokenNotFound)
            <==> forall i :: 0 <= i < |slots| ==> !SlotMatches(slots[i], name, stringLE)
    ensures slots == [] ==> SelectToken(slots, name, stringLE) == Err(TokenNotFound)
  {
    NoMatchIff(slots, name, stringLE);
  }

  /** "multiple matching tokens found" exactly when two distinct slots match. */
  lemma SelectMultiple(slots: seq<Option<Token>>, name: string, stringLE: StringLE)
    ensures SelectToken(slots, name, stringLE) == Err(MultipleTokens)
            <==> exists i, j :: 0 <= i < j < |slots|
                   && SlotMatches(slots[i], name, stringLE) && SlotMatches(slots[j], name, stringLE)
  {
    TwoMatchesIff(slots, name, stringLE);
  }

  /** Token t is selected exactly when it is in the one and only matching slot. */
  lemma SelectFound(slots: seq<Option<Token>>, name: string, stringLE: StringLE, t: Token)
    ensures SelectToken(slots, name, stringLE) == Ok(t)
            <==> exists i :: 0 <= i < |slots| && slots[i] == Some(t) && Matches(t, name, stringLE)
                   && forall j :: 0 <= j < |slots| && j != i ==> !SlotMatches(slots[j], name, stringLE)
  {
    NoMatchIff(slots, name, stringLE);
    TwoMatchesIff(slots, name, stringLE);
    if SelectToken(slots, name, stringLE) == Ok(t) {
      SingleMatchAt(slots, name, stringLE);
    }
    if exists i :: 0 <= i < |slots| && slots[i] == Some(t) && Matches(t, name, stringLE)
                   && forall j :: 0 <= j < |slots| && j != i ==> !SlotMatches(slots[j], name, stringLE)
    {
      var i :| 0 <= i < |slots| && slots[i] == Some(t) && Matches(t, name, stringLE)
               && forall j :: 0 <= j < |slots| && j != i ==> !SlotMatches(slots[j], name, stringLE);
      assert SlotMatches(slots[i], name, stringLE);
      SingleMatchAt(slots, name, stringLE);
      var i' :| 0 <= i' < |slots| && slots[i'] == LastMatch(slots, name, stringLE)
                && forall j :: 0 <= j < |slots| && j != i' ==> !SlotMatches(slots[j], name, stringLE);
      assert SlotMatches(slots[i'], name, stringLE);
      assert i' == i;
    }
  }

  /**
   * getMatchingTokenAux: probes the slots in order, skipping nil ones, and
   * stops at the second match. probed is the number of slots fetched (for
   * the RPC variant, each one is a network call).
   */
  method GetMatchingTokenAux(slots: seq<Option<Token>>, name: string, stringLE: StringLE)
    returns (r: Result<Token, LookupError>, probed: nat)
    ensures r == SelectToken(slots, name, stringLE)
    ensures r != Err(MultipleTokens) ==> probed == |slots|
    ensures r == Err(MultipleTokens) ==>
              0 < probed <= |slots| && SlotMatches(slots[probed - 1], name, stringLE)
              && MatchCount(slots[..probed - 1], name, stringLE) == 1
  {
    var token: Option<Token> := None;
    var count := 0;
    var i := 0;
    while i < |slots|
      invariant 0 <= i <= |slots|
      invariant count == MatchCount(slots[..i], name, stringLE) && count <= 1
      invariant token == LastMatch(slots[..i], name, stringLE)
    {
      assert slots[..i + 1][..i] == slots[..i];
      assert slots[..i + 1][i] == slots[i];
      var t := slots[i];
      if t.Some? && Matches(t.value, name, stringLE) {
        if count == 1 {
          MatchCountPrefix(slots, i + 1, name, stringLE);
          r, probed := Err(MultipleTokens), i + 1;
          return;
        }
        count := count + 1;
        token := t;
      }
      i := i + 1;
    }
    assert slots[..i] == slots;
    probed := i;
    if count == 0 {
      r := Err(TokenNotFound);
    } else {
      r := Ok(token.value);
    }
  }

  /** The wallet's own token list seen as lookup slots. */
  function WalletSlots(tokens: seq<Token>): (slots: seq<Option<Token>>)
    ensures |slots| == |tokens|
    ensures forall i :: 0 <= i < |tokens| ==> slots[i] == Some(tokens[i])
  {
    seq(|tokens|, i requires 0 <= i < |tokens| => Some(tokens[i]))
  }

  /** getMatchingToken: the selection over the wallet's tokens. */
  method GetMatchingToken(tokens: seq<Token>, name: string, stringLE: StringLE)
    returns (r: Result<Token, LookupError>)
    ensures r == SelectToken(WalletSlots(tokens), name, stringLE)
  {
    var probed;
    r, probed := GetMatchingTokenAux(WalletSlots(tokens), name, stringLE);
  }

  /**
   * Selection over the node's answer: info is None when the balance query
   * failed, and otherwise holds, per balance, the token info the node returned
   * for its asset (None where that query failed).
   */
  function RpcSelect(info: Option<seq<Option<Token>>>, name: string, stringLE: StringLE): Result<Token, LookupError>
  {
    match info
    case None => Err(RpcFailure)
    case Some(slots) => SelectToken(slots, name, stringLE)
  }

  /** getMatchingTokenRPC. */
  method GetMatchingTokenRpc(info: Option<seq<Option<Token>>>, name: string, stringLE: StringLE)
    returns (r: Result<Token, LookupError>)
    ensures info.None? ==> r == Err(RpcFailure)
    ensures info.Some? ==> r == SelectToken(info.value, name, stringLE)
  {
    if info.None? {
      return Err(RpcFailure);
    }
    var probed;
    r, probed := GetMatchingTokenAux(info.value, name, stringLE);
  }

  /** The result of the shared lookup: the wallet's selection when it succeeds, else the node's. */
  function Resolved(tokens: seq<Token>, info: Option<seq<Option<Token>>>, name: string, stringLE: StringLE): Result<Token, LookupError>
  {
    var local := SelectToken(WalletSlots(tokens), name, stringLE);
    if local.Ok? then local else RpcSelect(info, name, stringLE)
  }

  /**
   * The lookup the balance and transfer commands share: the wallet first and,
   * on any error there, the node; the node's error is the one reported.
   */
  method ResolveToken(tokens: seq<Token>, info: Option<seq<Option<Token>>>, name: string, stringLE: StringLE)
    returns (r: Result<Token, LookupError>)
    ensures SelectToken(WalletSlots(tokens), name, stringLE).Ok? ==> r == SelectToken(WalletSlots(tokens), name, stringLE)
    ensures SelectToken(WalletSlots(tokens), name, stringLE).Err? ==> r == RpcSelect(info, name, stringLE)
    ensures r.Ok? ==> Matches(r.value, name, stringLE)
    ensures r == Resolved(tokens, info, name, stringLE)
  {
    r := GetMatchingToken(tokens, name, stringLE);
    if r.Err? {
      r := GetMatchingTokenRpc(info, name, stringLE);
    }
  }

  // ---------------------------------------------------------------------------
  // Import duplicate check (importNEP5Token)
  // ---------------------------------------------------------------------------

  /** Outcome of the duplicate check: go on, or "token already exists" (showing the existing one). */
  datatype ImportCheck = Proceed | AlreadyExists(existing: Token)

  /** The wallet already holds a token with this hash. */
  predicate HasToken(tokens: seq<Token>, hash: Uint160)
  {
    exists i :: 0 <= i < |tokens| && tokens[i].hash == hash
  }

  /**
   * Refuses the import exactly when some wallet token has the requested hash,
   * reporting the first such token. The token list is a value: the check
   * cannot change it.
   */
  method CheckImport(tokens: seq<Token>, hash: Uint160) returns (r: ImportCheck)
    ensures r.AlreadyExists? <==> HasToken(tokens, hash)
    ensures r.AlreadyExists? ==>
              exists i :: 0 <= i < |tokens| && tokens[i] == r.existing && r.existing.hash == hash
                && forall j :: 0 <= j < i ==> tokens[j].hash != hash
  {
    for i := 0 to |tokens|
      invariant forall j :: 0 <= j < i ==> tokens[j].hash != hash
    {
      if tokens[i].hash == hash {
        return AlreadyExists(tokens[i]);
      }
    }
    return Proceed;
  }

  // ---------------------------------------------------------------------------
  // Balance listing (getNEP5Balance)
  // ---------------------------------------------------------------------------

  /** One NEP-5 balance entry as the node reports it. */
  datatype Balance = Balance(asset: Uint160, amount: string, lastUpdated: int)

  /**
   * The balances of one asset, in their original order. The contract bounds
   * the result; BalancesOfMember, BalancesOfAppend and BalancesOfAll say
   * exactly which balances it keeps and in what order.
   */
  function BalancesOf(balances: seq<Balance>, asset: Uint160): (r: seq<Balance>)
    ensures |r| <= |balances|
    ensures forall i :: 0 <= i < |r| ==> r[i].asset == asset
  {
    if balances == [] then []
    else BalancesOf(balances[..|balances| - 1], asset)
         + (if balances[|balances| - 1].asset == asset then [balances[|balances| - 1]] else [])
  }

  /** A balance is listed exactly when it is one of the input's and is of the asset. */
  lemma {:induction false} BalancesOfMember(balances: seq<Balance>, asset: Uint160, b: Balance)
    ensures b in BalancesOf(balances, asset) <==> b in balances && b.asset == asset
  {
    if balances != [] {
      var p := balances[..|balances| - 1];
      BalancesOfMember(p, asset, b);
      assert balances == p + [balances[|balances| - 1]];
    }
  }

  /** The filter distributes over concatenation, so it keeps relative order. */
  lemma {:induction false} BalancesOfAppend(s: seq<Balance>, t: seq<Balance>, asset: Uint160)
    ensures BalancesOf(s + t, asset) == BalancesOf(s, asset) + BalancesOf(t, asset)
  {
    if t == [] {
      assert s + t == s;
    } else {
      var k := |t| - 1;
      BalancesOfAppend(s, t[..k], asset);
      assert (s + t)[..|s + t| - 1] == s + t[..k];
      assert (s + t)[|s + t| - 1] == t[k];
    }
  }

  /** Everything is kept exactly when every balance is of the asset. */
  lemma {:induction false} BalancesOfAll(balances: seq<Balance>, asset: Uint160)
    ensures BalancesOf(balances, asset) == balances
            <==> forall i :: 0 <= i < |balances| ==> balances[i].asset == asset
  {
    if balances != [] {
      var k := |balances| - 1;
      var p := balances[..k];
      BalancesOfAll(p, asset);
      assert forall i :: 0 <= i < k ==> p[i] == balances[i];
      if balances[k].asset == asset {
        assert balances == p + [balances[k]];
      } else {
        assert |BalancesOf(balances, asset)| < |balances|;
      }
    }
  }

  /**
   * The listing loop: with an empty token name every balance is shown,
   * otherwise only those of the selected token's asset, in order.
   */
  method ListedBalances(balances: seq<Balance>, name: string, token: Option<Token>)
    returns (listed: seq<Balance>)
    requires name != "" ==> token.Some?
    ensures name == "" ==> listed == balances
    ensures name != "" ==> listed == BalancesOf(balances, token.value.hash)
  {
    listed := [];
    for i := 0 to |balances|
      invariant name == "" ==> listed == balances[..i]
      invariant name != "" ==> listed == BalancesOf(balances[..i], token.value.hash)
    {
      assert balances[..i + 1][..i] == balances[..i];
      var asset := balances[i].asset;
      if name != "" && token.value.hash != asset {
        continue;
      }
      listed := listed + [balances[i]];
    }
    assert balances[..|balances|] == balances;
  }

  /**
   * getNEP5Balance without its I/O: resolve the token when one is named, then
   * list. fetched is the node's balance answer (None when that call failed).
   */
  method GetNep5Balance(tokens: seq<Token>, info: Option<seq<Option<Token>>>, name: string,
                        stringLE: StringLE, fetched: Option<seq<Balance>>)
    returns (r: Result<seq<Balance>, LookupError>)
    ensures name == "" ==> r == (if fetched.Some? then Ok(fetched.value) else Err(RpcFailure))
    ensures (name != "" && SelectToken(WalletSlots(tokens), name, stringLE).Err? && RpcSelect(info, name, stringLE).Err?)
              ==> r == Err(RpcSelect(info, name, stringLE).error)
    ensures r.Ok? && name != "" ==>
              fetched.Some? && exists t :: Matches(t, name, stringLE) && r.value == BalancesOf(fetched.value, t.hash)
    ensures name != "" ==>
              r == (var sel := Resolved(tokens, info, name, stringLE);
                    if sel.Err? then Err(sel.error)
                    else if fetched.None? then Err(RpcFailure)
                    else Ok(BalancesOf(fetched.value, sel.value.hash)))
  {
    var token: Option<Token> := None;
    if name != "" {
      var found := ResolveToken(tokens, info, name, stringLE);
      if found.Err? {
        return Err(found.error);
      }
      token := Some(found.value);
    }
    if fetched.None? {
      return Err(RpcFailure);
    }
    var listed := ListedBalances(fetched.value, name, token);
    r := Ok(listed);
  }

  // ---------------------------------------------------------------------------
  // Transfer script (transferNEP5)
  // ---------------------------------------------------------------------------

  datatype Opcode = PACK | THROWIFNOT

  /** One emitted instruction; its byte encoding is not part of this model. */
  datatype Instr =
    | PushInt(n: int)
    | PushBytes(bytes: seq<byte>)
    | PushString(s: string)
    | Op(op: Opcode)
    | AppCall(script: Uint160, tailCall: bool)

  /** What a transfer call carries. */
  datatype TransferArgs = TransferArgs(amount: int, to: Uint160, from: Uint160, token: Uint160)

  /** The fixed instruction order of a NEP-5 transfer invocation. */
  function TransferScript(a: TransferArgs): (s: seq<Instr>)
    ensures |s| == 8 && s[0] == PushInt(a.amount) && s[6] == AppCall(a.token, false)
  {
    [PushInt(a.amount), PushBytes(a.to), PushBytes(a.from), PushInt(3), Op(PACK),
     PushString("transfer"), AppCall(a.token, false), Op(THROWIFNOT)]
  }

  /** Recognises a transfer invocation and recovers its arguments. */
  function ParseTransfer(s: seq<Instr>): (r: Option<TransferArgs>)
    ensures r.Some? ==> |s| == 8
  {
    if |s| == 8 && s[0].PushInt? && s[1].PushBytes? && |s[1].bytes| == Uint160Length
       && s[2].PushBytes? && |s[2].bytes| == Uint160Length && s[3] == PushInt(3) && s[4] == Op(PACK)
       && s[5] == PushString("transfer") && s[6].AppCall? && !s[6].tailCall && s[7] == Op(THROWIFNOT)
    then Some(TransferArgs(s[0].n, s[1].bytes, s[2].bytes, s[6].script))
    else None
  }

  /** A transfer script is recognised and gives back exactly its arguments. */
  lemma ParseTransferScript(a: TransferArgs)
    ensures ParseTransfer(TransferScript(a)) == Some(a)
  {
  }

  /** Any script recognised as a transfer is the transfer script of what it yields. */
  lemma TransferScriptOfParsed(s: seq<Instr>)
    requires ParseTransfer(s).Some?
    ensures TransferScript(ParseTransfer(s).value) == s
  {
  }

  /** The buffered writer the emit helpers append to, seen as instructions. */
  class ScriptWriter {
    var instrs: seq<Instr>

    constructor ()
      ensures instrs == []
    {
      instrs := [];
    }

    method Emit(i: Instr)
      modifies this
      ensures instrs == old(instrs) + [i]
    {
      instrs := instrs + [i];
    }
  }

  /** The emit sequence of transferNEP5. */
  method BuildTransferScript(amount: int, to: Uint160, from: Uint160, token: Uint160)
    returns (script: seq<Instr>)
    ensures script == TransferScript(TransferArgs(amount, to, from, token))
    ensures ParseTransfer(script) == Some(TransferArgs(amount, to, from, token))
  {
    var w := new ScriptWriter();
    w.Emit(PushInt(amount));
    w.Emit(PushBytes(to));
    w.Emit(PushBytes(from));
    w.Emit(PushInt(3));
    w.Emit(Op(PACK));
    w.Emit(PushString("transfer"));
    w.Emit(AppCall(token, false));
    w.Emit(Op(THROWIFNOT));
    script := w.instrs;
    ParseTransferScript(TransferArgs(amount, to, from, token));
  }
}
