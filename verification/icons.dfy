/** The icon lookup: the centre always gets the default icon, the ids in a
    fixed table get their icon, and every other id gets the default. */
module Icons {

  /** The six icon paths of the icon table. */
  datatype Icon = Gear | Project | Tools | Briefcase | Contact | Default

  /** The ids with an icon of their own. */
  const IconMap: map<string, Icon> := map[
    "projects" := Project,
    "experience" := Briefcase,
    "skills" := Tools,
    "contact" := Contact,
    "web-projects" := Project,
    "mobile-projects" := Project,
    "frontend" := Tools,
    "backend" := Tools,
    "education" := Briefcase
  ]

  /** The names a plain JavaScript object inherits from `Object.prototype`;
      indexing an object literal with one of them that it does not define
      itself yields the inherited member, which is truthy. */
  const InheritedNames: set<string> := {
    "constructor", "toString", "toLocaleString", "valueOf", "hasOwnProperty",
    "isPrototypeOf", "propertyIsEnumerable", "__proto__",
    "__defineGetter__", "__defineSetter__", "__lookupGetter__", "__lookupSetter__"
  }

  /** What `iconMap[nodeId] || SVG_ICONS.default` evaluates to: an icon path,
      or an inherited member of the object. */
  datatype Lookup = Path(icon: Icon) | InheritedMember(name: string)

  /** `getNodeIcon` as written: the own entry if there is one, otherwise
      the inherited member of that name if there is one (truthy, so `||`
      keeps it), otherwise the default icon. */
  function NodeIconAsWritten(id: string, level: int): (r: Lookup)
    ensures level == 0 ==> r == Path(Default)
    ensures level != 0 && id in IconMap ==> r == Path(IconMap[id])
    ensures r.InheritedMember? <==> level != 0 && id !in IconMap && id in InheritedNames
  {
    if level == 0 then Path(Default)
    else if id in IconMap then Path(IconMap[id])
    else if id in InheritedNames then InheritedMember(id)
    else Path(Default)
  }

  /** For the id "toString" at a non-zero level the lookup yields the
      inherited `Object.prototype.toString` function, not an icon path. */
  lemma InheritedNameLeaks()
    ensures NodeIconAsWritten("toString", 1) == InheritedMember("toString")
    ensures !NodeIconAsWritten("toString", 1).Path?
  {
    assert "toString" !in IconMap;
  }

  /** `getNodeIcon` as evidently intended: only the table's own entries
      count, and every other id at a non-zero level gets the default. */
  function NodeIcon(id: string, level: int): (r: Icon)
    ensures level == 0 ==> r == Default
    ensures level != 0 && id in IconMap ==> r == IconMap[id]
    ensures level != 0 && id !in IconMap ==> r == Default
    ensures r != Gear
  {
    if level == 0 then Default
    else if id in IconMap then IconMap[id]
    else Default
  }

  /** The corrected lookup always yields an icon path, and agrees with the
      code as written on every id that is not an inherited member name. */
  lemma CorrectedAgreesOffPrototype(id: string, level: int)
    ensures NodeIconAsWritten(id, level).Path? ==> NodeIconAsWritten(id, level).icon == NodeIcon(id, level)
    ensures id !in InheritedNames ==> NodeIconAsWritten(id, level) == Path(NodeIcon(id, level))
  {
  }

  /** For a non-zero level the level plays no part. */
  lemma LevelIrrelevant(id: string, l1: int, l2: int)
    requires l1 != 0 && l2 != 0
    ensures NodeIcon(id, l1) == NodeIcon(id, l2)
  {
  }

  /** The table's mapping: categories and children by their kind. */
  lemma TableIcons(level: int)
    requires level != 0
    ensures NodeIcon("projects", level) == Project && NodeIcon("experience", level) == Briefcase
    ensures NodeIcon("skills", level) == Tools && NodeIcon("contact", level) == Contact
    ensures NodeIcon("web-projects", level) == Project && NodeIcon("mobile-projects", level) == Project
    ensures NodeIcon("frontend", level) == Tools && NodeIcon("backend", level) == Tools
    ensures NodeIcon("education", level) == Briefcase
  {
  }

  /** The centre gets the default icon whatever its id, even one in the
      table. */
  lemma CentreIsDefault(id: string)
    ensures NodeIcon(id, 0) == Default && NodeIconAsWritten(id, 0) == Path(Default)
  {
  }
}
