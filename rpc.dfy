/** The request and response envelopes exchanged over the network event bus. */
module Rpc {

  /** A request or response type tag. */
  type RequestType = string

  const TypeTransferPlayer: RequestType := "TRANSFER_PLAYER"

  datatype Request = Request(typ: RequestType, data: string)

  datatype Response = Response(typ: RequestType, data: string)

  /** Player identity (a UUID); its textual form is not modelled. */
  type PlayerId = nat

  datatype TransferPlayerRequest = TransferPlayerRequest(player: PlayerId, source: string, destination: string)

  type Status = string

  const StatusOk: Status := "OK"
  const StatusError: Status := "ERROR"

  datatype TransferPlayerResponse = TransferPlayerResponse(status: Status)
}
