/** The freight-contract lifecycle over a small world: the job board's open contracts,
    the owning company's accepted contracts, the completing employee's contract slot, and
    the completion notices received by the issuer and, when it is a production node, by
    the creator. */
module Contracts {

  datatype Option<T> = None | Some(value: T)

  /** The resource amount reserved for transport; its contents are not part of this
      model, so a reservation is an opaque key. */
  datatype Reservation = Reservation(id: nat)

  /** What a completion listener can see of the world when it is called: the owner's
      accepted contracts and the completing employee's slot (None where the contract has
      no owner or no completing employee). */
  datatype Observation = Observation(ownerAccepted: Option<seq<FreightContract>>, completingSlot: Option<FreightContract?>)

  /** One call of a listener's completion hook. */
  datatype Notice = Notice(contract: FreightContract, seen: Observation)

  function Observe(c: FreightContract): Observation
    reads c, c.owner, c.completingEntity
  {
    Observation(
      if c.owner == null then None else Some(c.owner.acceptedContracts),
      if c.completingEntity == null then None else Some(c.completingEntity.contract))
  }

  /** List removal: drops the first occurrence of `x`, if any. */
  function RemoveFirst<X(==)>(s: seq<X>, x: X): (r: seq<X>)
    ensures |r| == if x in s then |s| - 1 else |s|
    ensures forall y :: y in r ==> y in s
  {
    if s == [] then []
    else if s[0] == x then s[1..]
    else [s[0]] + RemoveFirst(s[1..], x)
  }

  /** Position of the first occurrence of `x` in `s`. */
  function IndexOf<X(==)>(s: seq<X>, x: X): (i: nat)
    requires x in s
    ensures i < |s| && s[i] == x && x !in s[..i]
  {
    if s[0] == x then 0
    else
      assert x in s[1..];
      1 + IndexOf(s[1..], x)
  }

  /** A list without `x` is returned as it is. */
  lemma {:induction false} RemoveFirstAbsent<X>(s: seq<X>, x: X)
    requires x !in s
    ensures RemoveFirst(s, x) == s
  {
    if s != [] {
      RemoveFirstAbsent(s[1..], x);
    }
  }

  /** Removal deletes exactly the first occurrence and keeps every other entry in order. */
  lemma {:induction false} RemoveFirstAt<X>(s: seq<X>, x: X)
    requires x in s
    ensures RemoveFirst(s, x) == s[..IndexOf(s, x)] + s[IndexOf(s, x) + 1..]
  {
    if s[0] != x {
      assert x in s[1..];
      RemoveFirstAt(s[1..], x);
      var j := IndexOf(s[1..], x);
      assert s[..j + 1] == [s[0]] + s[1..][..j];
      assert s[j + 2..] == s[1..][j + 1..];
    }
  }

  /** Removal takes one copy of `x` out of the list's contents, and nothing else. */
  lemma {:induction false} RemoveFirstContents<X>(s: seq<X>, x: X)
    ensures multiset(RemoveFirst(s, x)) == multiset(s) - multiset{x}
  {
    if s != [] {
      assert s == [s[0]] + s[1..];
      if s[0] != x {
        RemoveFirstContents(s[1..], x);
      }
    }
  }

  /** A contract listed once is no longer listed after its removal. */
  lemma RemoveFirstOnce<X>(s: seq<X>, x: X)
    requires multiset(s)[x] <= 1
    ensures x !in RemoveFirst(s, x)
  {
    RemoveFirstContents(s, x);
  }

  /** Per-system registry of open (posted, unaccepted) contracts. */
  class JobBoard {
    var openContracts: set<FreightContract>

    constructor ()
      ensures openContracts == {}
    {
      openContracts := {};
    }

    method AddContract(c: FreightContract)
      modifies this`openContracts
      ensures openContracts == old(openContracts) + {c}
    {
      openContracts := openContracts + {c};
    }

    /** Removing a contract that is not open is not an error. */
    method RemoveContract(c: FreightContract)
      modifies this`openContracts
      ensures openContracts == old(openContracts) - {c}
    {
      openContracts := openContracts - {c};
    }
  }

  class Company {
    var acceptedContracts: seq<FreightContract>
    /** The completion notices this company has received, oldest first. */
    var completions: seq<Notice>

    constructor ()
      ensures acceptedContracts == [] && completions == []
    {
      acceptedContracts := [];
      completions := [];
    }

    /** The company's completion hook: it records the call and what it saw. */
    method NotifyOfContractCompletion(c: FreightContract)
      modifies this`completions
      ensures completions == old(completions) + [Notice(c, Observe(c))]
    {
      completions := completions + [Notice(c, Observe(c))];
    }
  }

  /** An agent (ship or industry node) working for a company. `isProductionNode` says
      whether the employee is a production node; `completions` holds the notices that
      production node received. */
  class Employee {
    const isProductionNode: bool
    var contract: FreightContract?
    var completions: seq<Notice>

    constructor (isProductionNode: bool)
      ensures this.isProductionNode == isProductionNode
      ensures contract == null && completions == []
    {
      this.isProductionNode := isProductionNode;
      contract := null;
      completions := [];
    }

    /** The production node's completion hook: it records the call and what it saw. */
    method NotifyOfContractCompletion(c: FreightContract)
      modifies this`completions
      ensures completions == old(completions) + [Notice(c, Observe(c))]
    {
      completions := completions + [Notice(c, Observe(c))];
    }
  }

  class FreightContract {
    var issuer: Company
    var creator: Employee
    var reservation: Reservation
    var jobBoard: JobBoard
    /** Company that took the contract on; set by the accepting side, not by this class. */
    var owner: Company?
    /** Employee carrying the contract out; set by the accepting side, not by this class. */
    var completingEntity: Employee?

    /** Records the parties; posting on the board is the caller's job. */
    constructor (contractCreator: Employee, issuingCompany: Company, reservedResource: Reservation, board: JobBoard)
      ensures issuer == issuingCompany && creator == contractCreator
      ensures reservation == reservedResource && jobBoard == board
      ensures owner == null && completingEntity == null
    {
      issuer := issuingCompany;
      creator := contractCreator;
      reservation := reservedResource;
      jobBoard := board;
      owner := null;
      completingEntity := null;
    }

    /** Takes the contract off its board. The accepting company is not recorded,
        and no company's accepted contracts change. */
    method MarkAsAccepted(acceptingCompany: Company)
      modifies jobBoard`openContracts
      ensures jobBoard.openContracts == old(jobBoard.openContracts) - {this}
      ensures owner == old(owner)
    {
      jobBoard.RemoveContract(this);
    }

    /** Removes the contract from the owner's accepted list, notifies the listeners, and
        then frees the completing employee. The notices show the order: each listener
        saw the list already without this contract and the employee's slot still set. */
    method MarkAsComplete()
      requires owner != null && completingEntity != null
      modifies owner`acceptedContracts, issuer`completions, creator`completions, completingEntity`contract
      ensures owner.acceptedContracts == RemoveFirst(old(owner.acceptedContracts), this)
      ensures issuer.completions == old(issuer.completions)
        + [Notice(this, Observation(Some(owner.acceptedContracts), Some(old(completingEntity.contract))))]
      ensures creator.completions == (if creator.isProductionNode
        then old(creator.completions) + [Notice(this, Observation(Some(owner.acceptedContracts), Some(old(completingEntity.contract))))]
        else old(creator.completions))
      ensures completingEntity.contract == null
    {
      owner.acceptedContracts := RemoveFirst(owner.acceptedContracts, this);
      NotifyOfCompletion();
      completingEntity.contract := null;
    }

    /** The failure path: it does nothing. */
    method MarkAsUnableToComplete()
      ensures unchanged(this, jobBoard, issuer, creator)
    {
      return;
    }

      /** The notification step with the type test taken as written: the creator is an
        `Employee`, and no `Employee` has `ProductionNode` as its runtime type, so the test
        never holds and only the issuer is notified, even when the creator stands for a
        production node. */
    method NotifyOfCompletionAsWritten()
      modifies issuer`completions
      ensures issuer.completions == old(issuer.completions) + [Notice(this, Observe(this))]
      ensures creator.completions == old(creator.completions)
    {
      issuer.NotifyOfContractCompletion(this);
    }

    /** Notifies the issuer once, and the creator once more exactly when it is a
        production node. */
    method NotifyOfCompletion()
      modifies issuer`completions, creator`completions
      ensures issuer.completions == old(issuer.completions) + [Notice(this, Observe(this))]
      ensures creator.completions == (if creator.isProductionNode
        then old(creator.completions) + [Notice(this, Observe(this))]
        else old(creator.completions))
    {
      issuer.NotifyOfContractCompletion(this);
      if creator.isProductionNode {
        creator.NotifyOfContractCompletion(this);
      }
    }
  }

  /** Posting, accepting and completing one contract that a production node created and a
      ship carries out. */
  method LifecycleScenario()
  {
    var board := new JobBoard();
    var issuer := new Company();
    var carrier := new Company();
    var factory := new Employee(true);
    var ship := new Employee(false);
    var c := new FreightContract(factory, issuer, Reservation(0), board);

    board.AddContract(c);
    assert c in board.openContracts;

    c.MarkAsAccepted(carrier);
    assert c !in board.openContracts && c.owner == null && carrier.acceptedContracts == [];

    // What the accepting side does besides calling MarkAsAccepted.
    c.owner := carrier;
    carrier.acceptedContracts := carrier.acceptedContracts + [c];
    c.completingEntity := ship;
    ship.contract := c;

    c.MarkAsComplete();
    assert carrier.acceptedContracts == [];
    assert ship.contract == null;
    assert |issuer.completions| == 1 && issuer.completions[0].contract == c;
    assert |factory.completions| == 1 && ship.completions == [];
  }

  /** A contract created by a production node: with the type test as written the node
      gets no notice, while the intended notification step gives it one. */
  method CreatorNoticeScenario()
  {
    var board := new JobBoard();
    var issuer := new Company();
    var factory := new Employee(true);
    var c := new FreightContract(factory, issuer, Reservation(0), board);

    c.NotifyOfCompletionAsWritten();
    assert |issuer.completions| == 1 && factory.completions == [];

    c.NotifyOfCompletion();
    assert |issuer.completions| == 2 && |factory.completions| == 1;
  }
}
