/** The team of volunteers and the notes they leave one another. */
module Team {
  import opened Lists

  datatype Member = Member(id: string, name: string, phone: string, email: string)

  datatype Note = Note(id: string, text: string, author: string, createdAt: string)

  /** `removeMember`: exactly the members with another id stay, in order. */
  function RemoveMember(team: seq<Member>, id: string): (r: seq<Member>)
    ensures forall m :: m in r <==> m in team && m.id != id
    ensures forall m :: multiset(r)[m] == if m.id != id then multiset(team)[m] else 0
  {
    RemoveId(team, (m: Member) => m.id, id)
  }

  /** `deleteNote`: exactly the notes with another id stay, in order. */
  function DeleteNote(notes: seq<Note>, id: string): (r: seq<Note>)
    ensures forall n :: n in r <==> n in notes && n.id != id
    ensures forall n :: multiset(r)[n] == if n.id != id then multiset(notes)[n] else 0
  {
    RemoveId(notes, (n: Note) => n.id, id)
  }
}
