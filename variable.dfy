/** The variable slot record (src/entities/complex/variable.rs): a name and a
    value that is absent until something is stored. `get_mut` lends
    in-place access to the value, so it is modelled as a read of the value
    plus a write through that borrow. */
module Variables {
  import opened Errors
  import opened Literals

  class Variable {
    var name: string
    var value: Option<Literal>

    constructor(name: string, value: Option<Literal>)
      ensures this.name == name && this.value == value
    {
      this.name := name;
      this.value := value;
    }

    /** `get_mut`: the stored literal when there is one, `None` otherwise. */
    function GetMut(): (r: Option<Literal>)
      reads this
      ensures r.None? <==> value.None?
      ensures r.Some? ==> value == Some(r.value)
    {
      value
    }

    /** Assignment through the `&mut Literal` that `get_mut` returned: only
        possible while a value is present, and it replaces that value and
        nothing else. */
    method WriteThrough(v: Literal)
      requires GetMut().Some?
      modifies this`value
      ensures GetMut() == Some(v)
      ensures value == Some(v)
    {
      value := Some(v);
    }

    /** A helper of this model, not a method of `Variable`: the way callers
        use `get_mut`, writing `v` through it when it yields a reference. The
        name never changes, nor does whether a value is present. */
    method StoreIfPresent(v: Literal) returns (written: bool)
      modifies this`value
      ensures written <==> old(value).Some?
      ensures value == if written then Some(v) else old(value)
      ensures value.Some? == old(value).Some?
    {
      match GetMut()
      case Some(_) =>
        WriteThrough(v);
        written := true;
      case None =>
        written := false;
    }
  }
}
