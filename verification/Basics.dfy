// Types shared by every part of the model.
module Basics {

  datatype Option<+T> = None | Some(value: T)

  function GetOr<T>(o: Option<T>, default: T): T {
    if o.Some? then o.value else default
  }

  /** A column lookup: None when the key has no entry. */
  function Lookup<K, V>(m: map<K, V>, k: K): Option<V> {
    if k in m then Some(m[k]) else None
  }

  /** A table of rows keyed by (agent, text), without one agent's rows. */
  function WithoutAgent(rows: map<(nat, string), string>, id: nat): map<(nat, string), string> {
    map e | e in rows && e.0 != id :: rows[e]
  }

  function Min(a: int, b: int): int {
    if a <= b then a else b
  }

  /** The StrKey text of an account or contract: always 56 characters (see module StrKey). */
  type Address = s: string | |s| == 56 witness seq(56, i => 'A')

  const MAX_U32: nat := 0xFFFF_FFFF
  const MAX_U64: nat := 0xFFFF_FFFF_FFFF_FFFF
}
