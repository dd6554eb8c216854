/** `decodeInteraction` (src/utils/decodeTransaction.ts): the calldata of a transaction is
    decoded against the ERC-20 interface, then the ERC-721 interface, then the ABI the
    registry of known contracts (src/constants/contractAbis.ts) holds for the contract
    address, with fixed fallbacks in between. The ABI parser, ethers'
    `Interface.parseTransaction`, is a parameter. */
module Interaction {
  import opened Wrappers
  import opened JsText

  /** The ABIs an interface is built from. */
  datatype Abi = Erc20Standard | Erc721Standard | Erc20TokenAbi

  /** A parsed call: function name, argument values (kept as opaque text) and signature. */
  datatype Parsed = Parsed(name: string, args: seq<string>, signature: string)

  /** What `new Interface(abi).parseTransaction({ data })` does: returns a description,
      returns `null`, or throws. */
  datatype Attempt = Match(call: Parsed) | NoMatch | Throws

  type Parser = (Abi, string) -> Attempt

  /** A registry entry: a display name and the contract's ABI. */
  datatype AbiInfo = AbiInfo(name: string, abi: Abi)

  /** The registry's own entries. */
  type Registry = map<string, AbiInfo>

  /** The lower-case names an object literal inherits from `Object.prototype`. Reading one
      of them off the registry gives a truthy value that is not an entry and has no `abi`. */
  const InheritedKeys: set<string> := {"constructor", "__proto__"}

  /** What `registry[key]` reads: an own entry, an inherited member, or `undefined`. */
  datatype Property = Own(info: AbiInfo) | Inherited | Missing

  /** A property read on the registry object: own entries shadow inherited members. */
  function ReadProperty(registry: Registry, key: string): (r: Property)
    ensures r.Own? <==> key in registry
    ensures r.Own? ==> r.info == registry[key]
    ensures r.Inherited? <==> key !in registry && key in InheritedKeys
  {
    if key in registry then Own(registry[key])
    else if key in InheritedKeys then Inherited
    else Missing
  }

  /** `KNOWN_ABIS`, keyed by lower-case address. */
  const KnownAbis: Registry := map["0x34b1d68b352603d14b31b888d13b9d1fd6ededb1" := AbiInfo("Test Token", Erc20TokenAbi)]

  /** The object `decodeInteraction` returns when it returns one. */
  datatype Decoded =
    | Call(kind: string, call: Parsed, contractName: string, contractAddress: string)
    | Raw(kind: string, data: string)

  const Erc20ContractName := "ERC20 Token"
  const Erc721ContractName := "ERC721 Token"

  /** `decodeInteraction(input, contractAddress)` against a registry and a parser. An
      inherited member read off the registry has no `abi`, so `new Interface(undefined)`
      throws (the constructor iterates over its argument) and the outer `catch` answers
      `null`. */
  function DecodeWith(registry: Registry, parse: Parser, input: string, address: string): (r: Option<Decoded>)
    ensures input == "" || input == "0x" ==> r == None
    ensures r.Some? && r.value.Call? ==> r.value.contractAddress == address
    ensures r.Some? && r.value.Raw? ==> r.value.data == input
    ensures r == Some(Raw("Unknown Contract", input)) ==> ReadProperty(registry, ToLower(address)).Missing?
  {
    if input == "" || input == "0x" then None
    else match parse(Erc20Standard, input)
      case Match(c) => Some(Call("ERC20 " + c.name, c, Erc20ContractName, address))
      case _ =>
        match parse(Erc721Standard, input)
        case Match(c) => Some(Call("ERC721 " + c.name, c, Erc721ContractName, address))
        case _ =>
          match ReadProperty(registry, ToLower(address))
          case Missing => Some(Raw("Unknown Contract", input))
          case Inherited => None
          case Own(info) =>
            match parse(info.abi, input)
            case Match(c) => Some(Call(info.name + " " + c.name, c, info.name, address))
            case NoMatch => None
            case Throws => Some(Raw("Contract Interaction", input))
  }

  /** `decodeInteraction` itself, with the shipped registry. */
  function DecodeInteraction(parse: Parser, input: string, address: string): Option<Decoded> {
    DecodeWith(KnownAbis, parse, input, address)
  }

  // ---------------------------------------------------------------------------------
  // The cascade as a list of stages

  /** What one stage of the cascade does with the input: settle the answer or pass on. */
  datatype Verdict = Settle(answer: Option<Decoded>) | PassOn

  /** The stages in priority order. */
  datatype Stage = StandardStage(abi: Abi, contractName: string, typePrefix: string) | RegistryStage

  const Stages := [StandardStage(Erc20Standard, Erc20ContractName, "ERC20 "),
                   StandardStage(Erc721Standard, Erc721ContractName, "ERC721 "),
                   RegistryStage]

  /** A standard interface settles only on a successful parse; a `null` or a throw passes
      on. The registry stage always settles. */
  function RunStage(s: Stage, registry: Registry, parse: Parser, input: string, address: string): Verdict {
    match s
    case StandardStage(abi, contractName, typePrefix) =>
      if parse(abi, input).Match? then Settle(Some(Call(typePrefix + parse(abi, input).call.name, parse(abi, input).call, contractName, address)))
      else PassOn
    case RegistryStage =>
      var key := ToLower(address);
      if key !in registry then Settle(if key in InheritedKeys then None else Some(Raw("Unknown Contract", input)))
      else
        var attempt := parse(registry[key].abi, input);
        Settle(if attempt.Match? then Some(Call(registry[key].name + " " + attempt.call.name, attempt.call, registry[key].name, address))
               else if attempt.NoMatch? then None
               else Some(Raw("Contract Interaction", input)))
  }

  /** The first stage that settles decides; if none does, there is no answer. */
  function FirstSettled(stages: seq<Stage>, registry: Registry, parse: Parser, input: string, address: string): Option<Decoded> {
    if stages == [] then None
    else match RunStage(stages[0], registry, parse, input, address)
      case Settle(answer) => answer
      case PassOn => FirstSettled(stages[1..], registry, parse, input, address)
  }

  /** `decodeInteraction` is the priority cascade ERC-20, ERC-721, registry, once the empty
      calldata has been ruled out. */
  lemma DecodeIsPriorityCascade(registry: Registry, parse: Parser, input: string, address: string)
    requires input != "" && input != "0x"
    ensures DecodeWith(registry, parse, input, address) == FirstSettled(Stages, registry, parse, input, address)
  {
    var later := Stages[1..];
    assert later[1..] == [RegistryStage];
    if !parse(Erc20Standard, input).Match? {
      assert FirstSettled(Stages, registry, parse, input, address) == FirstSettled(later, registry, parse, input, address);
      if !parse(Erc721Standard, input).Match? {
        assert FirstSettled(later, registry, parse, input, address) == FirstSettled([RegistryStage], registry, parse, input, address);
      }
    }
  }

  // ---------------------------------------------------------------------------------
  // Properties of the cascade

  /** A successful ERC-20 parse wins, and what the ERC-721 interface or the registry would
      say is never consulted. */
  lemma Erc20Wins(registry: Registry, parse: Parser, other: Parser, input: string, address: string)
    requires input != "" && input != "0x"
    requires parse(Erc20Standard, input).Match?
    requires other(Erc20Standard, input) == parse(Erc20Standard, input)
    ensures var c := parse(Erc20Standard, input).call;
      DecodeWith(registry, parse, input, address) == Some(Call("ERC20 " + c.name, c, "ERC20 Token", address))
    ensures DecodeWith(registry, parse, input, address) == DecodeWith(map[], other, input, address)
  {
  }

  /** When the ERC-20 parse returns `null` or throws and the ERC-721 parse succeeds, the
      ERC-721 description is the answer. */
  lemma Erc721Second(registry: Registry, parse: Parser, input: string, address: string)
    requires input != "" && input != "0x"
    requires !parse(Erc20Standard, input).Match?
    requires parse(Erc721Standard, input).Match?
    ensures var c := parse(Erc721Standard, input).call;
      DecodeWith(registry, parse, input, address) == Some(Call("ERC721 " + c.name, c, "ERC721 Token", address))
  {
  }

  /** With both standard parses failing: an address that is neither registered nor an
      inherited member name gives the raw "Unknown Contract" answer, and an inherited member
      name gives `null`; a registered one gives its own description on a successful parse,
      `null` on a `null` parse, and the raw "Contract Interaction" answer when its parse
      throws. */
  lemma RegistryFallbacks(registry: Registry, parse: Parser, input: string, address: string)
    requires input != "" && input != "0x"
    requires !parse(Erc20Standard, input).Match? && !parse(Erc721Standard, input).Match?
    ensures var r := DecodeWith(registry, parse, input, address); var key := ToLower(address);
      && (key !in registry && key !in InheritedKeys ==> r == Some(Raw("Unknown Contract", input)))
      && (key !in registry && key in InheritedKeys ==> r == None)
      && (key in registry && parse(registry[key].abi, input).NoMatch? ==> r == None)
      && (key in registry && parse(registry[key].abi, input).Throws? ==> r == Some(Raw("Contract Interaction", input)))
      && (key in registry && parse(registry[key].abi, input).Match? ==>
            var info := registry[key]; var c := parse(info.abi, input).call;
            r == Some(Call(info.name + " " + c.name, c, info.name, address)))
  {
  }

  /** The answer is `null` exactly for empty calldata, or, after both standard parses
      failed, for an inherited member name or a registered contract whose own parse returns
      `null`. */
  lemma NullExactly(registry: Registry, parse: Parser, input: string, address: string)
    ensures DecodeWith(registry, parse, input, address) == None <==>
      || input == "" || input == "0x"
      || (&& !parse(Erc20Standard, input).Match? && !parse(Erc721Standard, input).Match?
          && ToLower(address) !in registry && ToLower(address) in InheritedKeys)
      || (&& !parse(Erc20Standard, input).Match? && !parse(Erc721Standard, input).Match?
          && ToLower(address) in registry && parse(registry[ToLower(address)].abi, input).NoMatch?)
  {
  }

  /** Replaces the contract address a decoded call carries. */
  function WithAddress(d: Option<Decoded>, address: string): Option<Decoded> {
    if d.Some? && d.value.Call? then Some(d.value.(contractAddress := address)) else d
  }

  /** The registry lookup ignores the case of the address: two addresses that lowercase alike
      decode alike, each carrying its own spelling of the address. */
  lemma LookupIgnoresCase(registry: Registry, parse: Parser, input: string, a: string, b: string)
    requires ToLower(a) == ToLower(b)
    ensures WithAddress(DecodeWith(registry, parse, input, a), b) == DecodeWith(registry, parse, input, b)
  {
  }

  /** The shipped registry holds exactly one contract, and finds it under any capitalisation
      of its address. */
  lemma KnownAbisLookup(address: string)
    requires ToLower(address) == "0x34b1d68b352603d14b31b888d13b9d1fd6ededb1"
    ensures ToLower(address) in KnownAbis && KnownAbis[ToLower(address)] == AbiInfo("Test Token", Erc20TokenAbi)
    ensures |KnownAbis| == 1
  {
  }

  /** With the shipped registry, a contract address spelled like an inherited member name
      (`constructor`, `__proto__`, in any capitalisation) decodes to `null` once both
      standard parses fail, not to "Unknown Contract". */
  lemma InheritedNameDecodesToNull(parse: Parser, input: string, address: string)
    requires input != "" && input != "0x"
    requires !parse(Erc20Standard, input).Match? && !parse(Erc721Standard, input).Match?
    requires ToLower(address) == "constructor" || ToLower(address) == "__proto__"
    ensures DecodeInteraction(parse, input, address) == None
  {
  }
}
