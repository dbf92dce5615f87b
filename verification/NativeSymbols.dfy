/**
  The queue of native symbols of evp-agent.c: registrations made before the agent starts wait in a
  tail queue until the agent thread hands them to the wasm runtime and frees them.
*/
module NativeSymbols {
  import opened Common

  const EINVAL := 22
  const ENOMEM := 12

  datatype Entry = Entry(moduleName: string, nativeSymbols: nat, nNativeSymbols: nat)

  /** The calls run up to the first refusal, if any; `answers` are the runtime's, in queue order. */
  ghost predicate HandedOver<T>(queue: seq<T>, answers: seq<bool>, calls: seq<T>, ret: int) {
    && calls <= queue && |answers| == |queue|
    && (ret == 0 || ret == -1)
    && (ret == 0 ==> calls == queue && forall k :: 0 <= k < |queue| ==> answers[k])
    && (ret == -1 ==> calls != [] && !answers[|calls| - 1] && forall k :: 0 <= k < |calls| - 1 ==> answers[k])
  }

  /** The answers settle the calls and the result: nothing is skipped, nothing tried after a refusal. */
  lemma HandedOverOneWay<T>(queue: seq<T>, answers: seq<bool>, c1: seq<T>, r1: int, c2: seq<T>, r2: int)
    requires HandedOver(queue, answers, c1, r1) && HandedOver(queue, answers, c2, r2)
    ensures c1 == c2 && r1 == r2
  {
  }

  /** `accepted` is how many answers come before the first refusal, all of them if there is none. */
  predicate FirstRefusal(answers: seq<bool>, accepted: nat) {
    && (forall k :: 0 <= k < |answers| && k < accepted ==> answers[k])
    && (accepted < |answers| ==> !answers[accepted])
  }

  class Symbols {
    var queue: seq<Entry>
    var started: bool

    constructor ()
      ensures queue == [] && !started
    {
      queue, started := [], false;
    }

    method Add(moduleName: Option<string>, nativeSymbols: Option<nat>, n: nat, mallocOk: bool) returns (ret: int)
      modifies this`queue
      ensures moduleName.None? || nativeSymbols.None? || n == 0 <==> ret == -22
      ensures ret == 0 <==> moduleName.Some? && nativeSymbols.Some? && n > 0 && mallocOk
      ensures ret == 0 || ret == -22 || ret == -12
      ensures queue == old(queue) + if ret == 0 then [Entry(moduleName.value, nativeSymbols.value, n)] else []
    {
      if moduleName.None? {
        return -EINVAL;
      }
      if nativeSymbols.None? {
        return -EINVAL;
      }
      if n == 0 {
        return -EINVAL;
      }
      if !mallocOk {
        return -ENOMEM;
      }
      queue := queue + [Entry(moduleName.value, nativeSymbols.value, n)];
      return 0;
    }

    /** EVP_wasm_runtime_register_natives */
    method RegisterNatives(moduleName: Option<string>, nativeSymbols: Option<nat>, n: nat, mallocOk: bool) returns (ok: bool)
      modifies this`queue
      ensures ok <==> !started && moduleName.Some? && nativeSymbols.Some? && n > 0 && mallocOk
      ensures queue == old(queue) + if ok then [Entry(moduleName.value, nativeSymbols.value, n)] else []
    {
      if started {
        return false;
      }
      var ret := Add(moduleName, nativeSymbols, n, mallocOk);
      return ret == 0;
    }

    /** evp_agent_flush_wasm_native_symbols, with no insertion while it runs. */
    method Flush(answers: seq<bool>) returns (ret: int, calls: seq<Entry>, freed: seq<Entry>)
      requires |answers| == |queue|
      modifies this`queue
      ensures queue == [] && freed == old(queue)
      ensures HandedOver(old(queue), answers, calls, ret)
    {
      ret, calls, freed := 0, [], [];
      while queue != []
        invariant freed + queue == old(queue)
        invariant calls <= freed && (ret == 0 || ret == -1)
        invariant ret == 0 ==> calls == freed && forall k :: 0 <= k < |freed| ==> answers[k]
        invariant ret == -1 ==> calls != [] && !answers[|calls| - 1] && forall k :: 0 <= k < |calls| - 1 ==> answers[k]
        decreases |queue|
      {
        var entry := queue[0];
        if ret == 0 {
          calls := calls + [entry];
          if !answers[|freed|] {
            ret := -1;
          }
        }
        queue := queue[1..];
        freed := freed + [entry];
      }
    }
  }
}
