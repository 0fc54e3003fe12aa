/** The FTP client: parsing of the server string, and the session state that
    `connect`, `close_connection`, `set_ftp_directory` and `upload` change.
    The server's side of each call is an input: whether it returns or which
    kind of exception it raises. */
module Ftp {
  import opened Wrappers
  import opened PyStr
  import opened PyPath

  /** The port used when `server` names none or names one that is not an
      integer. */
  const DefaultPort := 21

  /** `FTPClient.__init__` on `server`: `server.split(":")` with exactly two
      parts is `host:port`, and `int(port)` falls back to 21 on `ValueError`;
      any other string is the host as a whole, with port 21. */
  function ParseServer(server: string): (r: (string, int))
    ensures Count(server, ':') != 1 ==> r == (server, DefaultPort)
    ensures Count(server, ':') == 1 ==>
      && ':' !in r.0
      && exists p :: server == r.0 + ":" + p && r.1 == ParseInt(p).GetOr(DefaultPort)
  {
    var parts := SplitChar(server, ':');
    if |parts| == 2 then
      SplitCharOnce(server, ':');
      var i := IndexOf(server, ':');
      assert server == server[..i] + ":" + server[i + 1..];
      (parts[0], ParseInt(parts[1]).GetOr(DefaultPort))
    else (server, DefaultPort)
  }

  /** A host and a port text, neither with a colon, are the two parts. */
  lemma ParseServerParts(host: string, p: string)
    requires ':' !in host && ':' !in p
    ensures ParseServer(host + ":" + p) == (host, ParseInt(p).GetOr(DefaultPort))
  {
    var s := host + ":" + p;
    assert multiset(s) == multiset(host) + multiset(":") + multiset(p);
    SplitCharOnce(s, ':');
    var i := IndexOf(s, ':');
    assert s[|host|] == ':';
    assert forall k :: 0 <= k < |host| ==> s[k] == host[k];
    assert s[..i] == host && s[i + 1..] == p;
  }

  /** `host:port` with a host without colons parses back to the pair. */
  lemma ParseServerHostPort(host: string, port: int)
    requires ':' !in host
    ensures ParseServer(host + ":" + IntToString(port)) == (host, port)
  {
    var t := IntToString(port);
    assert ':' !in t by {
      var n := NatToString(if port < 0 then -port else port);
      assert forall k :: 0 <= k < |n| ==> IsDigit(n[k]);
      if port < 0 {
        assert t == "-" + n;
      }
    }
    ParseServerParts(host, t);
    ParseIntOfIntToString(port);
  }

  /** A port text that is not an integer gives port 21. */
  lemma ParseServerBadPort(host: string, p: string)
    requires ':' !in host && ':' !in p && ParseInt(p).None?
    ensures ParseServer(host + ":" + p) == (host, DefaultPort)
  {
    ParseServerParts(host, p);
  }

  /** The kinds of exception a server call raises: `ftplib.error_perm` (a
      permanent error reply), `OSError` (which `IOError` names), or any other
      exception (including `AttributeError` on a missing session). */
  datatype FtpError = PermError | IoError | OtherError

  /** What the server does with one call. */
  datatype Reply = Ok | Raises(error: FtpError)

  /** The commands the client sends, in order. A transfer records the
      command text, the block size, the `rest` offset and the position the
      local file is read from. */
  datatype Command =
    | Cwd(dir: string)
    | Mkd(dir: string)
    | Stor(cmd: string, blocksize: nat, rest: Option<nat>, offset: nat)
    | Size(name: string)
    | Quit

  /** `self.ftp`: the session object of one connect attempt. */
  datatype Session = Session(tls: bool, host: string, port: int, passive: bool, user: string)

  /** `"STOR " + os.path.basename(filepath)`: the remote name is the local
      file's name without its directories. */
  function StorCommand(filepath: string): (cmd: string)
    ensures |cmd| >= 5 && cmd[..5] == "STOR "
    ensures '/' !in cmd[5..]
    ensures |cmd| - 5 <= |filepath| && filepath[|filepath| - (|cmd| - 5)..] == cmd[5..]
    ensures |cmd| - 5 < |filepath| ==> filepath[|filepath| - (|cmd| - 5) - 1] == '/'
    ensures cmd[5..] == Basename(filepath)
  {
    var name := Basename(filepath);
    var cmd := "STOR " + name;
    assert cmd[5..] == name;
    cmd
  }

  class FtpClient {
    const server: string
    const port: int
    const account: string
    const password: string
    const passive: bool
    const tls: bool
    /** The `connected` flag. */
    var connected: bool
    /** `self.ftp`, `None` until the first `connect`. */
    var ftp: Option<Session>
    /** The commands sent through `self.ftp`, in order. */
    var sent: seq<Command>

    /** A connected client has a session. */
    predicate Valid()
      reads this
    {
      connected ==> ftp.Some?
    }

    /** `FTPClient(server, account, password, passive, tls)`. */
    constructor (server: string, account: string, password: string, passive: bool, tls: bool)
      ensures (this.server, port) == ParseServer(server)
      ensures this.account == account && this.password == password
      ensures this.passive == passive && this.tls == tls
      ensures !connected && ftp == None && sent == []
      ensures Valid()
    {
      var parsed := ParseServer(server);
      this.server := parsed.0;
      port := parsed.1;
      this.account := account;
      this.password := password;
      this.passive := passive;
      this.tls := tls;
      connected := false;
      ftp := None;
      sent := [];
    }

    /** `close_connection()`: `QUIT`; once it returns the client is not
      connected. It raises when there is no session or `QUIT` raises, and
      then nothing changes but the command log. */
    method CloseConnection(quitReply: Reply) returns (r: Result<(), FtpError>)
      requires Valid()
      modifies this`connected, this`sent
      ensures Valid()
      ensures r.Success? <==> ftp.Some? && quitReply.Ok?
      ensures r.Success? ==> !connected
      ensures r.Failure? ==> connected == old(connected)
      ensures r.Failure? ==> r.error == (if ftp.None? then OtherError else quitReply.error)
      ensures sent == old(sent) + (if ftp.Some? then [Quit] else [])
    {
      if ftp.None? {
        return Failure(OtherError);
      }
      sent := sent + [Quit];
      if quitReply.Raises? {
        return Failure(quitReply.error);
      }
      connected := false;
      return Success(());
    }

    /** `connect()`: a connected client is closed first (an exception there
      propagates); then a new session is opened and logged in. A permanent
      error reply leaves the client unconnected and is swallowed; any other
      exception propagates. Returns the `connected` flag. */
    method Connect(quitReply: Reply, loginReply: Reply) returns (r: Result<bool, FtpError>)
      requires Valid()
      modifies this`connected, this`sent, this`ftp
      ensures Valid()
      ensures old(connected) && quitReply.Raises? ==>
        r == Failure(quitReply.error) && connected && ftp == old(ftp) && sent == old(sent) + [Quit]
      ensures !(old(connected) && quitReply.Raises?) ==>
        && ftp == Some(Session(tls, server, port, passive, account))
        && sent == old(sent) + (if old(connected) then [Quit] else [])
        && (loginReply.Ok? ==> r == Success(true) && connected)
        && (loginReply == Raises(PermError) ==> r == Success(false) && !connected)
        && (loginReply.Raises? && loginReply.error != PermError ==> r == Failure(loginReply.error) && !connected)
    {
      if connected {
        var c := CloseConnection(quitReply);
        if c.Failure? {
          return Failure(c.error);
        }
      }
      ftp := Some(Session(tls, server, port, passive, account));
      match loginReply
      case Ok =>
        connected := true;
        return Success(true);
      case Raises(e) =>
        if e == PermError {
          return Success(connected);
        }
        return Failure(e);
    }

    /** `set_ftp_directory(directory)`: `CWD`; only when that raises an
      `OSError` is the directory created with `MKD`, and the client does not
      change into it afterwards. A permanent error reply to `CWD` is not an
      `OSError` and propagates. */
    method SetFtpDirectory(directory: string, cwdReply: Reply, mkdReply: Reply) returns (r: Result<(), FtpError>)
      modifies this`sent
      ensures ftp.None? ==> r == Failure(OtherError) && sent == old(sent)
      ensures ftp.Some? ==>
        sent == old(sent) + [Cwd(directory)] + (if cwdReply == Raises(IoError) then [Mkd(directory)] else [])
      ensures r.Success? <==> ftp.Some? && (cwdReply.Ok? || (cwdReply == Raises(IoError) && mkdReply.Ok?))
      ensures ftp.Some? && cwdReply.Raises? && cwdReply.error != IoError ==> r == Failure(cwdReply.error)
    {
      if ftp.None? {
        return Failure(OtherError);
      }
      sent := sent + [Cwd(directory)];
      match cwdReply
      case Ok =>
        return Success(());
      case Raises(e) =>
        if e != IoError {
          return Failure(e);
        }
        sent := sent + [Mkd(directory)];
        if mkdReply.Raises? {
          return Failure(mkdReply.error);
        }
        return Success(());
    }

    /** `upload(filepath, bsize, callback, rest_pos)`: the local file is
      opened (raising `OSError` when it cannot be), read from `rest_pos` when
      one is given and from the start otherwise, and sent with
      `STOR <basename>` and `rest=rest_pos`. */
    method Upload(filepath: string, bsize: nat, restPos: Option<nat>, canOpen: bool, storReply: Reply)
      returns (r: Result<(), FtpError>)
      modifies this`sent
      ensures !canOpen ==> r == Failure(IoError) && sent == old(sent)
      ensures canOpen && ftp.None? ==> r == Failure(OtherError) && sent == old(sent)
      ensures canOpen && ftp.Some? ==>
        && sent == old(sent) + [Stor(StorCommand(filepath), bsize, restPos, restPos.GetOr(0))]
        && (r.Success? <==> storReply.Ok?)
        && (r.Failure? ==> r.error == storReply.error)
    {
      if !canOpen {
        return Failure(IoError);
      }
      var offset := 0;
      if restPos.Some? {
        offset := restPos.value;
      }
      if ftp.None? {
        return Failure(OtherError);
      }
      sent := sent + [Stor(StorCommand(filepath), bsize, restPos, offset)];
      match storReply
      case Ok =>
        return Success(());
      case Raises(e) =>
        return Failure(e);
    }
  }
}
