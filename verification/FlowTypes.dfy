/** The data carried by the flow table: the 5-tuple key, the two side-array records
    and the constants of the build (include/flow_table.h, include/common.h).

    Addresses and ports are kept as the numbers their network-order bytes spell, so a
    comparison of two fields here is the comparison of the raw words in the program.
    The zero padding bytes of the C structures carry no information and are not modelled.
 */
module FlowTypes {

  datatype Option<+T> = None | Some(value: T)

  type u8 = x: int | 0 <= x < 0x100
  type u16 = x: int | 0 <= x < 0x1_0000
  type u32 = x: int | 0 <= x < 0x1_0000_0000

  const U32_MODULUS := 0x1_0000_0000

  const NUM_WORKERS := 4
  const BURST_SIZE := 32
  const TX_RETRY_BUDGET := 8
  const AGING_NUM_CHUNKS := 8
  const AGING_BATCH_SIZE := 1024

  const PROTO_TCP: u8 := 6
  const PROTO_UDP: u8 := 17

  function Min(a: int, b: int): int {
    if a < b then a else b
  }

  ghost predicate Increasing(s: seq<nat>) {
    forall i, j | 0 <= i < j < |s| :: s[i] < s[j]
  }

  /** struct ipv4_5tuple_key */
  datatype Key = Key(ipSrc: u32, ipDst: u32, portSrc: u16, portDst: u16, proto: u8)

  /** struct flow_hot_data; a lastSeen of 0 marks a slot that was never published. */
  datatype Hot = Hot(lastSeen: nat, gen: u32, worker: u8)

  /** struct flow_cold_data */
  datatype Cold = Cold(srcIp: u32, dstIp: u32, srcPort: u16, dstPort: u16, protocol: u8, createTime: nat)

  /** A packet buffer: the (flow_idx, flow_gen) stamp in its hash field, pkt_len and the bytes
      of its first segment. */
  datatype Mbuf = Mbuf(id: nat, flowIdx: u32, flowGen: u32, len: nat, data: seq<u8>)

  /** The contents of freshly zeroed side arrays. */
  const ZERO_HOT := Hot(0, 0, 0)
  const ZERO_COLD := Cold(0, 0, 0, 0, 0, 0)

  /** flow_cold_from_key */
  function ColdFromKey(key: Key, createTime: nat): Cold {
    Cold(key.ipSrc, key.ipDst, key.portSrc, key.portDst, key.proto, createTime)
  }

  /** The key that candidate_load_slot rebuilds from a cold record. */
  function KeyFromCold(cold: Cold): Key {
    Key(cold.srcIp, cold.dstIp, cold.srcPort, cold.dstPort, cold.protocol)
  }

  /** Rebuilding a key from its cold record is exact, whatever the creation time. */
  lemma KeyColdKey(key: Key, createTime: nat, cold: Cold)
    ensures KeyFromCold(ColdFromKey(key, createTime)) == key
    ensures ColdFromKey(KeyFromCold(cold), cold.createTime) == cold
  {
  }
}
