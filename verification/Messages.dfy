/** The one message type every component shares: a full statement about one
    resource, carrying the sequence its producer assigned to it. */
module Messages {

  datatype Option<+T> = None | Some(value: T)

  datatype Kind = Asg | Container | Db | Host | Lb | Sg | Vm

  /** `<type>-<counter>`; the type prefix always names the resource's type. */
  datatype Id = Id(kind: Kind, num: nat)

  datatype RelKind = RunsOn | AttachedTo | RoutesTo | MemberOf

  datatype Rel = Rel(kind: RelKind, target: Id)

  datatype Value = Num(n: real) | Str(s: string) | Bool(b: bool)

  type Attrs = map<string, Value>

  datatype Op = Upsert | Delete

  datatype Message = Message(id: Id, sequence: nat, op: Op, attrs: Attrs, rels: seq<Rel>, time: int)

  /** Redelivery copies a message; it never changes one. */
  ghost predicate Consistent(S: set<Message>)
  {
    forall a, b :: a in S && b in S && a.id == b.id && a.sequence == b.sequence ==> a == b
  }

  /** `m` is the newest statement `S` holds about its resource. */
  ghost predicate Latest(S: set<Message>, m: Message)
  {
    m in S && forall x :: x in S && x.id == m.id ==> x.sequence <= m.sequence
  }

  function MsgSet(ms: seq<Message>): set<Message>
  {
    set m | m in ms
  }

  lemma {:induction false} LatestExists(S: set<Message>, x: Message) returns (top: Message)
    requires x in S
    ensures Latest(S, top) && top.id == x.id && x.sequence <= top.sequence
    decreases |S|
  {
    if Latest(S, x) {
      top := x;
    } else {
      var y :| y in S && y.id == x.id && x.sequence < y.sequence;
      var T := S - {x};
      top := LatestExists(T, y);
      assert S == T + {x};
    }
  }
}
