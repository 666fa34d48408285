/** The members of tar and zip archives, as their readers give them. */
module Archives {
  datatype Kind = File | Directory | Other

  datatype Member = Member(name: string, kind: Kind, size: nat, content: string)
}
