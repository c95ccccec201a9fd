/** The detail modal: which of the five modal bodies is shown for a node,
    decided from the node id alone by a fixed sequence of rules. */
module DetailModal {
  import opened Wrappers
  import opened Store

  /** The five modal bodies. */
  datatype ModalKind = Central | Category | Project | Experience | Skill

  /** The ids that open the category modal. */
  const CategoryIds: set<string> := {"projects", "experience", "skills", "contact"}

  /** The modal body for `id`, by the first matching rule: the id "center";
      one of the four category ids; an id starting with "project", then
      "experience", then "skill"; any other id gets the skill body too. */
  function ModalContent(id: string): (k: ModalKind)
    ensures k == Central <==> id == "center"
    ensures k == Category <==> id in CategoryIds
    ensures k == Project <==> id !in CategoryIds && "project" <= id
    ensures k == Experience <==> id !in CategoryIds && !("project" <= id) && "experience" <= id
    ensures k == Skill <==> id != "center" && id !in CategoryIds && !("project" <= id) && !("experience" <= id)
  {
    if id == "center" then Central
    else if id in CategoryIds then Category
    else if "project" <= id then Project
    else if "experience" <= id then Experience
    else if "skill" <= id then Skill
    else Skill
  }

  /** The part of `PortfolioNodeData` the modal reads itself: the id that
      picks the body, and the label (`title`; `label` is a Dafny keyword)
      and description shown in the header.
      The other fields are handed to the chosen body unread. */
  datatype PortfolioNodeData = PortfolioNodeData(id: string, title: string, description: string)

  /** What an open modal shows: the header's title and subtitle, and the
      body. */
  datatype Shown = Shown(title: string, subtitle: string, body: ModalKind)

  /** What the modal renders: nothing without node data or while closed,
      otherwise a header with the node's label and description above the
      body chosen from the node's id. */
  function Modal(isOpen: bool, nodeData: Option<PortfolioNodeData>): (r: Option<Shown>)
    ensures r.Some? <==> isOpen && nodeData.Some?
    ensures r.Some? ==> r.value == Shown(nodeData.value.title, nodeData.value.description, ModalContent(nodeData.value.id))
  {
    match nodeData
    case None => None
    case Some(data) =>
      if isOpen then Some(Shown(data.title, data.description, ModalContent(data.id))) else None
  }

  /** The rule order matters: the category ids "projects", "experience" and
      "skills" also start with a later rule's prefix, yet open the category
      modal. */
  lemma CategoryRuleComesFirst()
    ensures "project" <= "projects" && ModalContent("projects") == Category
    ensures "experience" <= "experience" && ModalContent("experience") == Category
    ensures "skill" <= "skills" && ModalContent("skills") == Category
  {
  }

  /** The body depends only on the id: two nodes with the same id open the
      same body whatever their title or description. */
  lemma OnlyIdMatters(a: PortfolioNodeData, b: PortfolioNodeData)
    requires a.id == b.id
    ensures Modal(true, Some(a)).value.body == Modal(true, Some(b)).value.body
  {
  }

  /** With the store's data, the centre opens the central modal, the four
      categories the category modal, and each of the five children the skill
      modal, since none of their ids starts with "project", "experience" or
      "skill". */
  lemma {:induction false} StoreModals()
    ensures forall i :: 0 <= i < |InitialNodes()| ==>
      ModalContent(InitialNodes()[i].id) ==
        (if InitialNodes()[i].level == 0 then Central
         else if InitialNodes()[i].level == 1 then Category
         else Skill)
  {
    var ns := InitialNodes();
    forall i | 0 <= i < |ns|
      ensures ModalContent(ns[i].id) == (if ns[i].level == 0 then Central else if ns[i].level == 1 then Category else Skill)
    {
      if i == 0 {
      } else if i < 5 {
        assert ns[i].id in CategoryIds;
      } else {
        var id := ns[i].id;
        assert id !in CategoryIds;
        NotPrefix("project", id, if id[0] == 'e' then 1 else 0);
        NotPrefix("experience", id, 1);
      }
    }
  }

  /** A string is not a prefix of another when they differ at a position
      both have. */
  lemma NotPrefix(p: string, s: string, k: nat)
    requires k < |p| && k < |s| && p[k] != s[k]
    ensures !(p <= s)
  {
  }
}
