/**
 * The slice of the mail library (jakarta.mail over IMAP) that the client
 * touches, reduced to the state it reads: whether a store is connected,
 * whether a folder is open, and how many messages the remote inbox holds.
 */
module Mail {
  import opened Outcomes

  /** The exceptions the client can see from the library. */
  datatype MailError =
    | LoginRejected        // Store.connect threw: host unreachable, TLS failure, bad credentials
    | FolderOpenRejected   // Folder.open threw
    | FolderNotOpen        // IllegalStateException: the operation needs an open folder
    | ConnectionLost       // Folder.close threw: the connection to the server dropped
    | MissingHeader        // a null header was dereferenced (NullPointerException)

  /**
   * How the remote server answers during one call: whether it accepts the
   * account's login, whether the inbox can be opened read-only, and the
   * inbox's current message count.
   */
  datatype Server = Server(acceptsLogin: bool, opensInbox: bool, messageCount: nat)

  /** A store handle and whether it is connected. */
  datatype Store = Store(connected: bool)

  /** A folder handle and whether it is open. */
  datatype Folder = Folder(open: bool)

  /**
   * Folder.getMessage(position): the message handle is modelled by its
   * 1-based sequence number; a closed folder refuses the call.
   */
  function GetMessage(folder: Folder, position: nat): (r: Result<nat, MailError>)
    ensures r.Ok? <==> folder.open
    ensures r.Ok? ==> r.value == position
  {
    if folder.open then Ok(position) else Err(FolderNotOpen)
  }
}
