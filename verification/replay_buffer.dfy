/** The replay buffer (verl/trainer/main_ppo_sync.py, lines 186-275). */
module ReplayBuffers {
  import opened Basics

  /** A prompt is stored under its uid, an output under `{uid}_{session}_{index}`. */
  datatype Key = Prompt(uid: int) | Output(uid: int, session: nat, index: nat)

  datatype Status = Running | Success | Finished | Failure

  /** A tag dictionary, as far as sampling reads it. */
  datatype Tags = Tags(steps: Option<int>, status: Option<Status>)

  type Partition = map<Key, Tags>

  /** `dict.update` on one tag dictionary. */
  function Update(tag: Tags, more: Tags): Tags {
    Tags(if more.steps.Some? then more.steps else tag.steps, if more.status.Some? then more.status else tag.status)
  }

  function Lookup(p: Partition, key: Key): Tags { if key in p then p[key] else Tags(None, None) }

  /** All items merged into the partition. */
  function Added(p: Partition, items: Partition): Partition {
    map key | key in p.Keys + items.Keys :: if key in items then Update(Lookup(p, key), items[key]) else p[key]
  }

  /** What one pass of `sample` over the partition ends with. */
  datatype Scan = MustWait | Batch(keys: seq<Key>) | KeyError

  /** Every entry can be read: it has a step and, if that is the step asked for, a status. */
  ghost predicate Readable(p: Partition, step: int) {
    forall key :: key in p ==> p[key].steps.Some? && (p[key].steps == Some(step) ==> p[key].status.Some?)
  }

  ghost predicate Has(p: Partition, step: int, status: Status, key: Key) {
    key in p && p[key] == Tags(Some(step), Some(status))
  }

  class ReplayBuffer {
    var partitions: map<string, Partition>

    ghost function Contents(id: string): Partition
      reads this
    {
      if id in partitions then partitions[id] else map[]
    }

    constructor ()
      ensures forall id :: Contents(id) == map[]
    {
      partitions := map[];
    }

    method Add(id: string, items: Partition)
      modifies this
      ensures Contents(id) == Added(old(Contents(id)), items)
      ensures Contents(id).Keys == old(Contents(id)).Keys + items.Keys
      ensures forall key :: key in old(Contents(id)) && key !in items ==> Contents(id)[key] == old(Contents(id))[key]
      ensures forall key :: key in items ==>
        && (items[key].steps.Some? ==> Contents(id)[key].steps == items[key].steps)
        && (items[key].status.Some? ==> Contents(id)[key].status == items[key].status)
        && (items[key].steps.None? ==>
              Contents(id)[key].steps == if key in old(Contents(id)) then old(Contents(id))[key].steps else None)
        && (items[key].status.None? ==>
              Contents(id)[key].status == if key in old(Contents(id)) then old(Contents(id))[key].status else None)
      ensures forall other :: other != id ==> Contents(other) == old(Contents(other))
    {
      var partition := if id in partitions then partitions[id] else map[];
      ghost var before := partition;
      var todo := items.Keys;
      while todo != {}
        invariant todo <= items.Keys
        invariant partition.Keys == before.Keys + (items.Keys - todo)
        invariant forall key :: key in partition ==>
          partition[key] == if key in items && key !in todo then Update(Lookup(before, key), items[key]) else before[key]
        decreases todo
      {
        var key :| key in todo;
        todo := todo - {key};
        if key !in partition {
          partition := partition[key := Tags(None, None)];
        }
        partition := partition[key := Update(partition[key], items[key])];
      }
      partitions := partitions[id := partition];
    }

    method Remove(id: string, keys: seq<Key>)
      modifies this
      ensures Contents(id) == old(Contents(id)) - set k | k in keys
      ensures forall other :: other != id ==> Contents(other) == old(Contents(other))
    {
      var partition := if id in partitions then partitions[id] else map[];
      ghost var before := partition;
      var i := 0;
      while i < |keys|
        invariant 0 <= i <= |keys|
        invariant partition == before - set k | k in keys[..i]
      {
        if keys[i] in partition {
          partition := partition - {keys[i]};
        }
        assert keys[..i + 1] == keys[..i] + [keys[i]];
        i := i + 1;
      }
      assert keys[..i] == keys;
      partitions := partitions[id := partition];
    }

    /** One locked pass of `sample`: wait while a prompt of the step is running, otherwise
        hand out exactly the step's successful outputs, each once. */
    method SampleOnce(id: string, step: int) returns (r: Scan)
      ensures r.KeyError? ==> !Readable(Contents(id), step)
      ensures Readable(Contents(id), step) ==> (r.MustWait? <==> exists key :: Has(Contents(id), step, Running, key))
      ensures r.Batch? ==>
        && (forall key :: key in r.keys <==> Has(Contents(id), step, Success, key))
        && (forall i, j :: 0 <= i < j < |r.keys| ==> r.keys[i] != r.keys[j])
    {
      var partition := if id in partitions then partitions[id] else map[];
      var keys: seq<Key> := [];
      var todo := partition.Keys;
      while todo != {}
        invariant todo <= partition.Keys
        invariant forall key :: key in partition && key !in todo ==>
          partition[key].steps.Some? && !Has(partition, step, Running, key)
          && (partition[key].steps == Some(step) ==> partition[key].status.Some?)
        invariant forall key :: key in keys <==> key !in todo && Has(partition, step, Success, key)
        invariant forall i, j :: 0 <= i < j < |keys| ==> keys[i] != keys[j]
        decreases todo
      {
        var key :| key in todo;
        todo := todo - {key};
        var tag := partition[key];
        if tag.steps.None? { return KeyError; }
        if tag.steps.value == step {
          if tag.status.None? { return KeyError; }
          if tag.status.value == Running {
            assert Has(partition, step, Running, key);
            return MustWait;
          } else if tag.status.value == Success {
            keys := keys + [key];
          }
        }
      }
      r := Batch(keys);
    }
  }
}
