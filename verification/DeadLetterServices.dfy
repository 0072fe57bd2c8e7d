/** The two other users of the dead-letter table: the resend of one row and the queue's consumer. */
module DeadLetterServices {
  import opened Common
  import opened Json
  import opened Entities
  import opened Retry
  import opened DeadLetters

  datatype Answer = Ok | NotFound | BadRequest | Threw

  /** Where a row would be posted to, `None` where the service refuses. */
  function Destination(inboxes: map<InboxId, Inbox>, ambientes: map<int, Ambiente>, row: Row): Option<string>
  {
    if row.message.Null? || row.idInbox.None? then None else
    var id := row.idInbox.value;
    if id !in inboxes || inboxes[id].del then None else
    var a := inboxes[id].idAmbiente;
    if a !in ambientes || ambientes[a].del then None else Some(ambientes[a].url)
  }

  class DeadLetterService {
    const table: DeadLetterRepository
    var inboxes: map<InboxId, Inbox>
    var ambientes: map<int, Ambiente>
    var posts: seq<(string, Json)>

    constructor (table: DeadLetterRepository)
      ensures this.table == table && posts == []
    {
      this.table := table;
      inboxes, ambientes, posts := map[], map[], [];
    }

    /**
     * The message goes out once, to the ambiente its inbox belongs to now, if it has one; the row is
     * marked exactly when that post succeeded and the mark does not throw, and is otherwise left as it
     * was. So a message may have been delivered by a row that does not say so, never the reverse.
     */
    method Resend(id: RowId, http: Attempt<()>, markThrows: bool) returns (a: Answer)
      modifies this`posts, table
      ensures a.NotFound? <==> id !in old(table.rows)
      ensures a.BadRequest? <==> id in old(table.rows) && var row := old(table.rows)[id];
        || row.message.Null? || row.idInbox.None?
        || row.idInbox.value !in inboxes || inboxes[row.idInbox.value].del
        || var amb := inboxes[row.idInbox.value].idAmbiente; amb !in ambientes || ambientes[amb].del
      ensures a.Ok? || a.Threw? ==> (a.Ok? <==> http.Succeeds? && !markThrows)
      ensures posts == old(posts) +
        if a.Ok? || a.Threw? then [(Destination(inboxes, ambientes, old(table.rows)[id]).value, old(table.rows)[id].message)] else []
      ensures table.rows == if a.Ok? then old(table.rows)[id := old(table.rows)[id].(reenviado := true)] else old(table.rows)
    {
      if id !in table.rows {
        return NotFound;
      }
      var record := table.rows[id];
      if record.message.Null? || record.idInbox.None? {
        return BadRequest;
      }
      var inbox := FindInbox(inboxes, record.idInbox.value);
      if inbox.None? || inbox.value.del {
        return BadRequest;
      }
      var ambiente := FindAmbiente(ambientes, inbox.value.idAmbiente);
      if ambiente.None? || ambiente.value.del {
        return BadRequest;
      }
      posts := posts + [(ambiente.value.url, record.message)];
      if http.Fails? || markThrows {
        return Threw;
      }
      var missing := table.MarkReenviado(id);
      return Ok;
    }
  }

  /** A message as it is in the queue; an older sender may have left the status out. */
  datatype Queued = Queued(message: Json, idInbox: Option<InboxId>, status: Option<StatusFalhaMensagem>)

  class DeadLetterConsumer {
    const table: DeadLetterRepository
    var queue: seq<Queued>
    ghost var lost: seq<Queued>

    constructor (table: DeadLetterRepository)
      ensures this.table == table && queue == [] && lost == []
    {
      this.table := table;
      queue, lost := [], [];
    }

    /**
     * `ack` after the insert, `nack` without requeue if it threw: either way the message leaves the
     * queue, as a new row that holds what it said, or for good.
     */
    method OnMessage(id: RowId, now: int, insertThrows: bool) returns (acked: bool)
      requires queue != [] && id !in table.rows
      modifies this, table
      ensures queue == old(queue)[1..]
      ensures acked <==> !insertThrows
      ensures lost == old(lost) + if acked then [] else [old(queue)[0]]
      ensures var m := old(queue)[0];
        table.rows == if !acked then old(table.rows) else
          old(table.rows)[id := Row(m.message, m.idInbox, if m.status.Some? then m.status.value else NACK_RECEBIDO, false, false, now)]
    {
      var data := queue[0];
      queue := queue[1..];
      if insertThrows {
        lost := lost + [data];
        return false;
      }
      table.Create(data.message, data.idInbox, if data.status.Some? then data.status.value else NACK_RECEBIDO, id, now);
      return true;
    }
  }
}
