/** The run context: named checkpoints that mark finished work, a key/value store
    for messages about unfinished work, and a flag set by `done()`. How the context
    is persisted between runs is not part of this model. */
module Context {
  import opened Wrappers
  import opened Errors

  class Context {
    var checkpoints: set<string>
    var data: map<string, string>
    var finished: bool

    /** A fresh context, or one reloaded from earlier runs with the given content. */
    constructor (checkpoints: set<string>, data: map<string, string>)
      ensures this.checkpoints == checkpoints && this.data == data && !finished
    {
      this.checkpoints := checkpoints;
      this.data := data;
      finished := false;
    }

    /** `ctx.get_checkpoint(name)`. */
    predicate GetCheckpoint(name: string)
      reads this
    {
      name in checkpoints
    }

    /** `ctx.set_checkpoint(name)`: afterwards the checkpoint is set; nothing else changes. */
    method SetCheckpoint(name: string)
      modifies this
      ensures checkpoints == old(checkpoints) + {name}
      ensures data == old(data) && finished == old(finished)
    {
      checkpoints := checkpoints + {name};
    }

    /** `key in ctx`. */
    predicate Contains(key: string)
      reads this
    {
      key in data
    }

    /** `ctx[key]`: a missing key raises `KeyError`. */
    method Get(key: string) returns (r: Result<string, Error>)
      ensures key in data ==> r == Ok(data[key])
      ensures key !in data ==> r == Err(KeyError(key))
    {
      if key in data {
        r := Ok(data[key]);
      } else {
        r := Err(KeyError(key));
      }
    }

    /** `ctx[key] = value`. */
    method Put(key: string, value: string)
      modifies this
      ensures data == old(data)[key := value]
      ensures checkpoints == old(checkpoints) && finished == old(finished)
    {
      data := data[key := value];
    }

    /** `del ctx[key]`: a missing key raises `KeyError` and changes nothing. */
    method Delete(key: string) returns (r: Result<(), Error>)
      modifies this
      ensures old(key in data) ==> r == Ok(()) && data == old(data) - {key}
      ensures old(key !in data) ==> r == Err(KeyError(key)) && data == old(data)
      ensures checkpoints == old(checkpoints) && finished == old(finished)
    {
      if key in data {
        data := data - {key};
        r := Ok(());
      } else {
        r := Err(KeyError(key));
      }
    }

    /** `ctx.done()`: the run is over; checkpoints and keys stay as they are. */
    method Done()
      modifies this
      ensures finished
      ensures checkpoints == old(checkpoints) && data == old(data)
    {
      finished := true;
    }
  }
}
