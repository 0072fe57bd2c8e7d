/** The records that several services share. */
module Entities {
  import opened Common
  import opened Json

  /** A UUID. */
  type InboxId = string

  datatype StatusFalhaMensagem =
    | INBOX_NAO_REGISTRADA
    | FALHA_ENFILEIRAMENTO
    | NACK_RECEBIDO
    | FALHA_ENVIO
    | AMBIENTE_INDISPONIVEL
    | ASSINATURA_INVALIDA

  datatype Ambiente = Ambiente(id: int, nome: string, url: string, del: bool)

  datatype Inbox = Inbox(
    idAmbiente: int,
    pid: string,
    nome: string,
    del: bool,
    data: int,
    wabaId: Option<string>)

  datatype DlqMessage = DlqMessage(message: Json, idInbox: Option<InboxId>, status: StatusFalhaMensagem)

  /** `inboxRepo.findById`: the row, unless it is missing or soft-deleted. */
  function FindInbox(inboxes: map<InboxId, Inbox>, id: InboxId): Option<Inbox>
  {
    if id in inboxes && !inboxes[id].del then Some(inboxes[id]) else None
  }

  /** `ambienteRepo.findById`: the row, unless it is missing or soft-deleted. */
  function FindAmbiente(ambientes: map<int, Ambiente>, id: int): Option<Ambiente>
  {
    if id in ambientes && !ambientes[id].del then Some(ambientes[id]) else None
  }
}
