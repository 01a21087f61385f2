/**
  The part of Redis the core uses: named sets of byte strings with
  `SADD`, `SCARD` and `SISMEMBER`. A connection that cannot be obtained or
  a command that fails is modelled by the store being offline; every
  command then fails and changes nothing.
*/
module Redis {
  import opened Wrappers
  import opened RustStd

  datatype RedisError = Unavailable

  type Sets = map<string, set<seq<byte>>>

  /** The members of the set at `key`; a missing key is the empty set, as in Redis. */
  function MembersOf(sets: Sets, key: string): set<seq<byte>>
  {
    if key in sets then sets[key] else {}
  }

  /** The store after `SADD key member`. */
  function AddMember(sets: Sets, key: string, member: seq<byte>): (r: Sets)
    ensures MembersOf(r, key) == MembersOf(sets, key) + {member}
    ensures forall k :: k != key ==> MembersOf(r, k) == MembersOf(sets, k)
  {
    sets[key := MembersOf(sets, key) + {member}]
  }

  /** Adding a member twice is adding it once. */
  lemma AddMemberIdempotent(sets: Sets, key: string, member: seq<byte>)
    ensures AddMember(AddMember(sets, key, member), key, member) == AddMember(sets, key, member)
  {
  }

  /** `SADD` grows the cardinality by one for a new member and leaves it alone otherwise. */
  lemma AddMemberCardinality(sets: Sets, key: string, member: seq<byte>)
    ensures |MembersOf(AddMember(sets, key, member), key)|
         == |MembersOf(sets, key)| + (if member in MembersOf(sets, key) then 0 else 1)
  {
    var s := MembersOf(sets, key);
    if member in s {
      assert s + {member} == s;
    }
  }

  class Redis {
    var sets: Sets
    var online: bool

    function Members(key: string): set<seq<byte>>
      reads this
    {
      MembersOf(sets, key)
    }

    constructor (sets: Sets, online: bool)
      ensures this.sets == sets && this.online == online
    {
      this.sets := sets;
      this.online := online;
    }

    /** `SADD key member`: the number of members added (0 or 1). */
    method SAdd(key: string, member: seq<byte>) returns (r: Result<nat, RedisError>)
      modifies this
      ensures online == old(online)
      ensures r.Ok? <==> old(online)
      ensures r.Ok? ==> sets == AddMember(old(sets), key, member)
      ensures r.Ok? ==> r.value == if member in old(Members(key)) then 0 else 1
      ensures r.Err? ==> sets == old(sets)
    {
      if !online {
        return Err(Unavailable);
      }
      var added := if member in Members(key) then 0 else 1;
      sets := AddMember(sets, key, member);
      return Ok(added);
    }

    /** `SCARD key`. */
    method SCard(key: string) returns (r: Result<nat, RedisError>)
      ensures r.Ok? <==> online
      ensures r.Ok? ==> r.value == |Members(key)|
    {
      if !online {
        return Err(Unavailable);
      }
      return Ok(|Members(key)|);
    }

    /** `SISMEMBER key member`. */
    method SIsMember(key: string, member: seq<byte>) returns (r: Result<bool, RedisError>)
      ensures r.Ok? <==> online
      ensures r.Ok? ==> (r.value <==> member in Members(key))
    {
      if !online {
        return Err(Unavailable);
      }
      return Ok(member in Members(key));
    }
  }
}
