/** `/move audit` (`lurk_chan/src/commands/move_thing.rs`): the claimant of
    an action moves it to the other platform's audit channel. */
module Move {
  import opened Wrappers
  import opened Text
  import opened Common
  import opened DbCodec
  import opened Store
  import opened Database

  /** The command's choice parameter. */
  datatype Choice = ChooseSL | ChooseDiscord

  function ChoiceLocation(c: Choice): (l: Location)
    ensures c == ChooseSL ==> l == SL
    ensures c == ChooseDiscord ==> l == Discord
  {
    match c
    case ChooseSL => SL
    case ChooseDiscord => Discord
  }

  /** Every location is offered by exactly one choice. */
  lemma ChoiceLocationBijective(c: Choice, d: Choice, l: Location)
    ensures ChoiceLocation(c) == ChoiceLocation(d) ==> c == d
    ensures exists e :: ChoiceLocation(e) == l
  {
    if l == SL {
      assert ChoiceLocation(ChooseSL) == l;
    } else {
      assert ChoiceLocation(ChooseDiscord) == l;
    }
  }

  /** Discord's part of a move: whether the command's deferral succeeds,
      whether the old message can be fetched, the id of the message sent to
      the new channel (None when building its embed or sending it fails),
      and whether deleting the old message succeeds. */
  datatype MoveIo = MoveIo(deferred: bool, fetched: bool, sent: Option<u64>, deleted: bool)

  datatype MoveFailure = DeferFailed | DbFailed(e: Error) | FetchFailed | SendFailed | DeleteFailed

  datatype MoveReply = Moved | NotYourAudit | AlreadyThere | NotFound | Failed(why: MoveFailure)

  /** The move command. It first defers its answer, and stops when that
      fails. `auditChannel` is the configured audit channel of each
      platform; the new message is sent there. */
  function MoveAudit(db: Db, id: u32, uid: u64, choice: Choice, auditChannel: Location -> u64, io: MoveIo): (r: (Db, MoveReply))
    requires db.Valid()
    ensures r.0.Valid()
    ensures !io.deferred ==> r == (db, Failed(DeferFailed))
    ensures r.1 != Moved && !(r.1.Failed? && (r.1.why == SendFailed || r.1.why == DeleteFailed)) ==> r.0 == db
    ensures forall a: Action :: io.deferred && GetActionFromId(db, id) == Ok(Some(a)) && a.claimant != uid ==>
              r == (db, NotYourAudit)
    ensures forall a: Action :: io.deferred && GetActionFromId(db, id) == Ok(Some(a)) && a.claimant == uid
                                && a.server == ChoiceLocation(choice) ==>
              r == (db, AlreadyThere)
    ensures io.deferred && GetActionFromId(db, id) == Ok(None) ==> r == (db, NotFound)
    ensures r.0.reports == db.reports && r.0.reportLinks == db.reportLinks && r.0.actions.Keys == db.actions.Keys
  {
    var location := ChoiceLocation(choice);
    if !io.deferred then (db, Failed(DeferFailed))
    else
      match GetActionFromId(db, id)
      case Err(e) => (db, Failed(DbFailed(e)))
      case Ok(None) => (db, NotFound)
      case Ok(Some(a)) =>
        if uid != a.claimant then (db, NotYourAudit)
        else if a.server == location then (db, AlreadyThere)
        else
          match GetActionMessage(db, id)
          case Err(e) => (db, Failed(DbFailed(e)))
          case Ok(None) => (db, NotFound)
          case Ok(Some(_)) =>
            if !io.fetched then (db, Failed(FetchFailed))
            else
              var db1 := EditAction(db, id, a.(server := location));
              match io.sent
              case None => (db1, Failed(SendFailed))
              case Some(message) =>
                if !io.deleted then (db1, Failed(DeleteFailed))
                else (AddActionMessage(db1, auditChannel(location), message, id), Moved)
  }

  /** A move completes exactly when the deferral succeeds, the invoker
      claimed the action, it is not already in the chosen platform, its
      message link reads, and Discord fetches the old message, sends the new
      one and deletes the old one. */
  lemma MovedExactly(db: Db, id: u32, uid: u64, choice: Choice, auditChannel: Location -> u64, io: MoveIo)
    requires db.Valid()
    ensures MoveAudit(db, id, uid, choice, auditChannel, io).1 == Moved <==>
              && GetActionFromId(db, id).Ok? && GetActionFromId(db, id).value.Some?
              && GetActionFromId(db, id).value.value.claimant == uid
              && GetActionFromId(db, id).value.value.server != ChoiceLocation(choice)
              && GetActionMessage(db, id).Ok? && GetActionMessage(db, id).value.Some?
              && io.deferred && io.fetched && io.sent.Some? && io.deleted
  {
  }

  /** A move that meets those conditions completes, changes only the
      action's server, and records a link to the new message in the new
      platform's audit channel. */
  lemma MoveEffect(db: Db, id: u32, uid: u64, choice: Choice, auditChannel: Location -> u64, io: MoveIo, a: Action)
    requires db.Valid()
    requires GetActionFromId(db, id) == Ok(Some(a)) && a.claimant == uid && a.server != ChoiceLocation(choice)
    requires GetActionMessage(db, id).Ok? && GetActionMessage(db, id).value.Some?
    requires io.deferred && io.fetched && io.sent.Some? && io.deleted
    ensures var r := MoveAudit(db, id, uid, choice, auditChannel, io);
            && r.1 == Moved
            && GetActionFromId(r.0, id) == Ok(Some(a.(server := ChoiceLocation(choice))))
            && r.0.actionLinks == db.actionLinks +
                 [LinkRow(id as int, DecimalText(io.sent.value), DecimalText(auditChannel(ChoiceLocation(choice))))]
  {
    assert id in db.actions;
    EditThenGet(db, id, a.(server := ChoiceLocation(choice)));
  }

  /** The moved action keeps an older link: the link table gains a row but
      the lookup returns the first one for the action, which is the message
      the move deleted. */
  lemma MoveKeepsOldLink(db: Db, id: u32, uid: u64, choice: Choice, auditChannel: Location -> u64, io: MoveIo)
    requires db.Valid()
    requires MoveAudit(db, id, uid, choice, auditChannel, io).1 == Moved
    ensures GetActionMessage(MoveAudit(db, id, uid, choice, auditChannel, io).0, id) == GetActionMessage(db, id)
  {
    var location := ChoiceLocation(choice);
    var a := GetActionFromId(db, id).value.value;
    var db1 := EditAction(db, id, a.(server := location));
    assert GetActionMessage(db, id).Ok? && GetActionMessage(db, id).value.Some?;
    assert FindLink(db1.actionLinks, id).Some?;
    AddActionMessageKeepsFirst(db1, auditChannel(location), io.sent.value, id);
  }
}
