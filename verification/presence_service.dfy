// The presence writer as the object the source has (src/presence/presence.service.ts).
module PresenceServices {
  import opened SessionInterface
  import opened Registry

  class PresenceService {
    /** Writes that have been issued to the tables and have not settled. */
    var outstanding: seq<Write>

    constructor ()
      ensures outstanding == []
    {
      outstanding := [];
    }

    method HandleConnect(event: LifecycleEvent)
      modifies this
      ensures outstanding == old(outstanding) + [PutUser(event.userId), PutClient(event.clientId, event.userId, event.token)]
    {
      TrackConnect(event.userId, event.clientId, event.token);
    }

    method HandleDisconnect(event: LifecycleEvent)
      modifies this
      ensures outstanding == old(outstanding) + [DeleteClient(event.clientId, event.token)]
    {
      TrackDisconnect(event.clientId, event.token);
    }

    /** Both puts are issued before either settles, so one may fail without the other. */
    method TrackConnect(userId: UserId, clientId: ClientId, presenceToken: string)
      modifies this
      ensures outstanding == old(outstanding) + [PutUser(userId), PutClient(clientId, userId, presenceToken)]
    {
      outstanding := outstanding + [PutUser(userId)];
      outstanding := outstanding + [PutClient(clientId, userId, presenceToken)];
    }

    method TrackDisconnect(clientId: ClientId, presenceToken: string)
      modifies this
      ensures outstanding == old(outstanding) + [DeleteClient(clientId, presenceToken)]
    {
      outstanding := outstanding + [DeleteClient(clientId, presenceToken)];
    }
  }
}
