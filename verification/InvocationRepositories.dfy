/** The invocation repository inside its Unit of Work: inserts under the CHECKs, reads that rebuild. */
module InvocationRepositories {
  import opened Wrappers
  import opened Invocations
  import opened InvocationRows
  import opened UnitOfWorks

  type Table = map<Id, InvocationRow>

  datatype RepositoryError = IntegrityFailure | CannotLoad(error: LoadError)

  /** Every row was stored from a valid aggregate under its own key. */
  ghost predicate Stored(t: Table) {
    forall id :: id in t ==> exists v :: Invocations.Valid(v) && v.who.id == id && t[id] == Store(v)
  }

  class InvocationRepository {
    const uow: UnitOfWork<Table>

    constructor (uow: UnitOfWork<Table>)
      ensures this.uow == uow
    {
      this.uow := uow;
    }

    /** One insert, refused by a taken identity, a CHECK or a column type, and then without effect. */
    method Add(v: Invocation) returns (r: Result<(), RepositoryError>)
      requires uow.session.Some? && Invocations.Valid(v)
      modifies uow
      ensures uow.session.Some?
      ensures r.Success? <==>
                v.who.id !in old(uow.Current()) && ExactCostSnapshot(v) && ExactCostEvidence(v) && FitsColumnTypes(Store(v))
      ensures uow.Current() == if r.Success? then old(uow.Current())[v.who.id := Store(v)] else old(uow.Current())
      ensures old(Stored(uow.Current())) ==> Stored(uow.Current())
    {
      hide Construct, SatisfiesChecks, FitsColumnTypes;
      ChecksAcceptExactly(v);
      var row := Store(v);
      if row.id in uow.Current() || !Insertable(row) {
        return Failure(IntegrityFailure);
      }
      uow.Write(uow.Current()[row.id := row]);
      assert uow.Current()[v.who.id] == Store(v);
      r := Success(());
    }

    method Get(id: Id) returns (r: Result<Option<Invocation>, RepositoryError>)
      requires uow.session.Some?
      ensures id !in uow.Current() ==> r == Success(None)
      ensures id in uow.Current() ==>
                r == match Load(uow.Current()[id])
                     case Success(v) => Success(v)
                     case Failure(error) => Failure(CannotLoad(error))
      ensures Stored(uow.Current()) ==> r.Success? && (r.value.Some? <==> id in uow.Current())
    {
      hide Load, Construct;
      if id !in uow.Current() {
        return Success(None);
      }
      var loaded := Load(uow.Current()[id]);
      assert Stored(uow.Current()) ==> loaded.Success? && loaded.value.Some? by {
        if Stored(uow.Current()) {
          var v :| Invocations.Valid(v) && v.who.id == id && uow.Current()[id] == Store(v);
          LoadAfterStore(v);
        }
      }
      match loaded {
        case Success(v) => r := Success(v);
        case Failure(error) => r := Failure(CannotLoad(error));
      }
    }

    /** What was added reads back as it was, but for a usage with no count at all. */
    method AddThenGet(v: Invocation) returns (r: Result<Option<Invocation>, RepositoryError>)
      requires uow.session.Some? && Invocations.Valid(v)
      requires v.who.id !in uow.Current() && ExactCostSnapshot(v) && ExactCostEvidence(v) && FitsColumnTypes(Store(v))
      modifies uow
      ensures r == Success(Some(Normalized(v)))
    {
      hide Load, Construct, Store, Normalized, FitsColumnTypes, ExactCostSnapshot, ExactCostEvidence;
      LoadAfterStore(v);
      var added := Add(v);
      r := Get(v.who.id);
    }
  }
}
