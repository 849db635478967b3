/** Media players as the MPRIS manager keeps them and the ConnectRPC server sends them. */
module MediaPlayers {

  datatype Metadata = Metadata(
    trackId: string,
    title: string,
    artist: seq<string>,
    album: string,
    artUrl: string,
    lengthMicro: int)

  datatype PlayerState = PlayerState(
    playerName: string,
    identity: string,
    desktopEntry: string,
    playbackStatus: string,
    volume: real,
    positionMicro: int,
    metadata: Metadata)
}
