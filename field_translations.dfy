/**
 * Display names for data-card fields (lib/fieldTranslations.ts): a fixed
 * table from property names to Chinese labels, and a recursive rewrite that
 * renames every property of a JSON value through it.
 */
module FieldTranslations {
  import opened Wrappers
  import opened Json

  /** `FIELD_TRANSLATIONS`: the label listed for a property name, if any. */
  function Translation(key: string): Option<string> {
    match key
    case "codename" => Some("魔法少女代号")
    case "magicalName" => Some("魔法少女名")
    case "name" => Some("姓名")
    case "age" => Some("年龄")
    case "gender" => Some("性别")
    case "description" => Some("描述")
    case "personality" => Some("性格")
    case "background" => Some("背景故事")
    case "backstory" => Some("背景故事")
    case "appearance" => Some("外观")
    case "outfit" => Some("服装")
    case "accessories" => Some("饰品")
    case "colorScheme" => Some("配色")
    case "overallLook" => Some("整体风格")
    case "height" => Some("身高")
    case "weight" => Some("体重")
    case "hairColor" => Some("发色")
    case "eyeColor" => Some("瞳色")
    case "hairStyle" => Some("发型")
    case "physique" => Some("体型")
    case "clothing" => Some("服装")
    case "specialFeatures" => Some("特殊特征")
    case "magicConstruct" => Some("魔力构装")
    case "form" => Some("形态")
    case "basicAbilities" => Some("基本能力")
    case "weapon" => Some("武器")
    case "magicalWeapon" => Some("魔法武器")
    case "wonderlandRule" => Some("奇境规则")
    case "tendency" => Some("规则倾向")
    case "activation" => Some("激活条件")
    case "blooming" => Some("繁开状态")
    case "evolvedAbilities" => Some("进化能力")
    case "evolvedForm" => Some("进化形态")
    case "evolvedOutfit" => Some("进化衣装")
    case "powerLevel" => Some("力量等级")
    case "analysis" => Some("性格分析")
    case "personalityAnalysis" => Some("性格分析")
    case "abilityReasoning" => Some("能力推理")
    case "coreTraits" => Some("核心特征")
    case "predictionBasis" => Some("预测依据")
    case "belief" => Some("信念")
    case "bonds" => Some("羁绊")
    case "coreConcept" => Some("核心概念")
    case "coreEmotion" => Some("核心情感/欲望")
    case "evolutionStage" => Some("进化阶段")
    case "materialAndSkin" => Some("材质/表皮")
    case "featuresAndAppendages" => Some("特征/附属物")
    case "attackMethod" => Some("攻击方式")
    case "specialAbility" => Some("特殊能力")
    case "origin" => Some("起源")
    case "birthEnvironment" => Some("诞生环境")
    case "researcherNotes" => Some("研究员笔记")
    case "appearanceForm" => Some("外貌形态")
    case "attributes" => Some("属性")
    case "stats" => Some("属性值")
    case "strength" => Some("力量")
    case "agility" => Some("敏捷")
    case "intelligence" => Some("智力")
    case "magic" => Some("魔力")
    case "defense" => Some("防御")
    case "speed" => Some("速度")
    case "stamina" => Some("耐力")
    case "charisma" => Some("魅力")
    case "luck" => Some("幸运")
    case "willpower" => Some("意志力")
    case "health" => Some("生命值")
    case "mana" => Some("魔力值")
    case "magicalPowers" => Some("魔法能力")
    case "powers" => Some("能力")
    case "abilities" => Some("技能")
    case "spells" => Some("法术")
    case "transformationSpell" => Some("变身咒语")
    case "transformationPhrase" => Some("变身口号")
    case "element" => Some("元素属性")
    case "elementType" => Some("元素类型")
    case "magicSource" => Some("魔力来源")
    case "contract" => Some("契约")
    case "familiar" => Some("使魔")
    case "level" => Some("等级")
    case "rank" => Some("阶级")
    case "experience" => Some("经验值")
    case "tier" => Some("层级")
    case "grade" => Some("品级")
    case "stage" => Some("阶段")
    case "phase" => Some("形态")
    case "relationships" => Some("人际关系")
    case "friends" => Some("朋友")
    case "family" => Some("家人")
    case "enemies" => Some("敌人")
    case "allies" => Some("盟友")
    case "mentor" => Some("导师")
    case "rivals" => Some("竞争对手")
    case "teammates" => Some("队友")
    case "school" => Some("学校")
    case "club" => Some("社团")
    case "occupation" => Some("职业")
    case "hobbies" => Some("兴趣爱好")
    case "likes" => Some("喜好")
    case "dislikes" => Some("厌恶")
    case "fears" => Some("恐惧")
    case "dreams" => Some("梦想")
    case "goals" => Some("目标")
    case "combatStyle" => Some("战斗风格")
    case "fightingStyle" => Some("战斗方式")
    case "battleStrategy" => Some("战斗策略")
    case "specialMoves" => Some("必杀技")
    case "ultimateAttack" => Some("终极技能")
    case "weaknesses" => Some("弱点")
    case "strengths" => Some("优势")
    case "resistances" => Some("抗性")
    case "immunities" => Some("免疫")
    case "vulnerabilities" => Some("弱点")
    case "scenario" => Some("情景")
    case "setting" => Some("背景设定")
    case "location" => Some("地点")
    case "time" => Some("时间")
    case "atmosphere" => Some("氛围")
    case "mood" => Some("情绪")
    case "theme" => Some("主题")
    case "plot" => Some("剧情")
    case "conflict" => Some("冲突")
    case "resolution" => Some("解决方案")
    case "characters" => Some("角色")
    case "npcs" => Some("NPC")
    case "environment" => Some("环境")
    case "weather" => Some("天气")
    case "season" => Some("季节")
    case "items" => Some("物品")
    case "equipment" => Some("装备")
    case "inventory" => Some("物品栏")
    case "artifacts" => Some("神器")
    case "treasures" => Some("宝物")
    case "consumables" => Some("消耗品")
    case "materials" => Some("材料")
    case "currency" => Some("货币")
    case "status" => Some("状态")
    case "effects" => Some("效果")
    case "buffs" => Some("增益效果")
    case "debuffs" => Some("减益效果")
    case "conditions" => Some("状态条件")
    case "modifiers" => Some("修正值")
    case "type" => Some("类型")
    case "category" => Some("分类")
    case "rarity" => Some("稀有度")
    case "quality" => Some("品质")
    case "duration" => Some("持续时间")
    case "cooldown" => Some("冷却时间")
    case "cost" => Some("消耗")
    case "range" => Some("范围")
    case "area" => Some("区域")
    case "target" => Some("目标")
    case "damage" => Some("伤害")
    case "healing" => Some("治疗")
    case "effect" => Some("效果")
    case "value" => Some("数值")
    case "amount" => Some("数量")
    case "chance" => Some("几率")
    case "probability" => Some("概率")
    case "requirements" => Some("需求")
    case "prerequisites" => Some("前置条件")
    case "limitations" => Some("限制")
    case "notes" => Some("备注")
    case "tags" => Some("标签")
    case "keywords" => Some("关键词")
    case "templateId" => Some("模板 ID")
    case "metadata" => Some("元数据")
    case "userAnswers" => Some("用户答案")
    case "createdAt" => Some("创建时间")
    case "updatedAt" => Some("更新时间")
    case "lastModified" => Some("最后修改")
    case "version" => Some("版本")
    case "id" => Some("ID")
    case "uuid" => Some("UUID")
    case "index" => Some("索引")
    case "order" => Some("顺序")
    case "priority" => Some("优先级")
    case "weightValue" => Some("权重")
    case "score" => Some("分数")
    case "rating" => Some("评分")
    case "count" => Some("计数")
    case "total" => Some("总计")
    case "max" => Some("最大值")
    case "min" => Some("最小值")
    case "average" => Some("平均值")
    case "current" => Some("当前值")
    case "base" => Some("基础值")
    case "bonus" => Some("奖励值")
    case "penalty" => Some("惩罚值")
    case "multiplier" => Some("倍率")
    case "factor" => Some("系数")
    case "rate" => Some("比率")
    case "percentage" => Some("百分比")
    case "ratio" => Some("比例")
    case "signature" => Some("认证签名")
    case "arena_history" => Some("历战记录")
    case "entries" => Some("历战记录")
    case "sublimation_count" => Some("升华次数")
    case "last_sublimation_at" => Some("上次升华时间")
    case "updated_at" => Some("更新时间")
    case "created_at" => Some("创建时间")
    case "world_line_id" => Some("世界线ID")
    case "title" => Some("标题")
    case "participants" => Some("参与者")
    case "winner" => Some("胜利者")
    case "impact" => Some("影响")
    case "user_guidance" => Some("用户引导")
    case _ => None
  }

  /**
   * `getFieldDisplayName`: `FIELD_TRANSLATIONS[key] || key`, the listed label
   * when there is a truthy one, the name itself otherwise.
   */
  function DisplayName(key: string): string {
    match Translation(key)
    case Some(shown) => if shown != "" then shown else key
    case None => key
  }

  /** Names the table lists get their label. */
  lemma ListedNames()
    ensures DisplayName("codename") == "魔法少女代号"
    ensures DisplayName("background") == "背景故事" && DisplayName("backstory") == "背景故事"
    ensures DisplayName("analysis") == "性格分析" && DisplayName("personalityAnalysis") == "性格分析"
  {
  }

  // ---------------------------------------------------------------------
  // translateObjectKeys, over the naming `name` (`DisplayName` in the source)

  /** `translateObjectKeys(v)`: arrays elementwise, objects by renamed properties, anything else as is. */
  function Translated(v: Json, name: string -> string): Json
    decreases v, 1
  {
    match v
    case JArr(items) => JArr(TranslatedItems(items, name))
    case JObj(fields) => JObj(TranslateInto([], fields, name))
    case _ => v
  }

  function TranslatedItems(items: seq<Json>, name: string -> string): (r: seq<Json>)
    ensures |r| == |items|
    ensures forall i :: 0 <= i < |items| ==> r[i] == Translated(items[i], name)
    decreases items, 0
  {
    seq(|items|, i requires 0 <= i < |items| => Translated(items[i], name))
  }

  /**
   * The `for` loop over `Object.entries(obj)`: each property in turn is
   * assigned into `acc` under its new name, so a later property whose name
   * collides with an earlier one's overwrites that one's value.
   */
  function TranslateInto(acc: seq<Field>, fields: seq<Field>, name: string -> string): seq<Field>
    decreases fields, 0
  {
    if |fields| == 0 then acc
    else TranslateInto(Set(acc, name(fields[0].key), Translated(fields[0].val, name)), fields[1..], name)
  }

  /** The renamed property reads the value of the last property renamed to it. */
  lemma {:induction false} LaterWins(acc: seq<Field>, fields: seq<Field>, name: string -> string, j: int)
    requires 0 <= j < |fields|
    requires forall i :: j < i < |fields| ==> name(fields[i].key) != name(fields[j].key)
    ensures Get(TranslateInto(acc, fields, name), name(fields[j].key)) == Some(Translated(fields[j].val, name))
    decreases |fields|
  {
    var acc' := Set(acc, name(fields[0].key), Translated(fields[0].val, name));
    if j == 0 {
      Untouched(acc', fields[1..], name, name(fields[0].key));
    } else {
      LaterWins(acc', fields[1..], name, j - 1);
    }
  }

  /** A name no property is renamed to reads as it did in `acc`. */
  lemma {:induction false} Untouched(acc: seq<Field>, fields: seq<Field>, name: string -> string, k: string)
    requires forall i :: 0 <= i < |fields| ==> name(fields[i].key) != k
    ensures Get(TranslateInto(acc, fields, name), k) == Get(acc, k)
    decreases |fields|
  {
    if |fields| > 0 {
      var acc' := Set(acc, name(fields[0].key), Translated(fields[0].val, name));
      assert name(fields[0].key) != k;
      Untouched(acc', fields[1..], name, k);
    }
  }

  /** Every property of the result is the new name of some input property or was already in `acc`. */
  lemma {:induction false} OnlyNewNames(acc: seq<Field>, fields: seq<Field>, name: string -> string, k: string)
    requires HasKey(TranslateInto(acc, fields, name), k)
    ensures HasKey(acc, k) || exists i :: 0 <= i < |fields| && name(fields[i].key) == k
    decreases |fields|
  {
    if |fields| > 0 {
      var acc' := Set(acc, name(fields[0].key), Translated(fields[0].val, name));
      OnlyNewNames(acc', fields[1..], name, k);
      if exists i :: 0 <= i < |fields[1..]| && name(fields[1..][i].key) == k {
        var i :| 0 <= i < |fields[1..]| && name(fields[1..][i].key) == k;
        assert name(fields[i + 1].key) == k;
      } else if k != name(fields[0].key) {
        assert Get(acc', k) == Get(acc, k);
      }
    }
  }

  /** The result has no repeated name and no more properties than `acc` and the input together. */
  lemma {:induction false} TranslateIntoSize(acc: seq<Field>, fields: seq<Field>, name: string -> string)
    requires UniqueKeys(acc)
    ensures |TranslateInto(acc, fields, name)| <= |acc| + |fields|
    ensures UniqueKeys(TranslateInto(acc, fields, name))
    decreases |fields|
  {
    if |fields| > 0 {
      var k := name(fields[0].key);
      var acc' := Set(acc, k, Translated(fields[0].val, name));
      SetShape(acc, k, Translated(fields[0].val, name));
      SetUnique(acc, k, Translated(fields[0].val, name));
      TranslateIntoSize(acc', fields[1..], name);
    }
  }

  /** The position of the last property renamed to `k`. */
  function LastRenamedTo(fields: seq<Field>, name: string -> string, k: string): (j: int)
    requires exists i :: 0 <= i < |fields| && name(fields[i].key) == k
    ensures 0 <= j < |fields| && name(fields[j].key) == k
    ensures forall i :: j < i < |fields| ==> name(fields[i].key) != k
    decreases |fields|
  {
    var n := |fields| - 1;
    if name(fields[n].key) == k then n
    else
      var i :| 0 <= i < |fields| && name(fields[i].key) == k;
      assert 0 <= i < |fields[..n]| && name(fields[..n][i].key) == k;
      LastRenamedTo(fields[..n], name, k)
  }

  /**
   * What a translated object holds: exactly the new names of its properties,
   * each with the translated value of the last property renamed to it, and
   * never more properties than the input.
   */
  lemma TranslatedObject(fields: seq<Field>, name: string -> string, k: string)
    ensures HasKey(Translated(JObj(fields), name).fields, k) <==>
      exists i :: 0 <= i < |fields| && name(fields[i].key) == k
    ensures forall j ::
      (0 <= j < |fields| && name(fields[j].key) == k &&
       (forall i :: j < i < |fields| ==> name(fields[i].key) != k)) ==>
        Get(Translated(JObj(fields), name).fields, k) == Some(Translated(fields[j].val, name))
    ensures |Translated(JObj(fields), name).fields| <= |fields|
    ensures UniqueKeys(Translated(JObj(fields), name).fields)
  {
    if HasKey(TranslateInto([], fields, name), k) {
      OnlyNewNames([], fields, name, k);
    }
    forall j | 0 <= j < |fields| && name(fields[j].key) == k &&
      (forall i :: j < i < |fields| ==> name(fields[i].key) != k)
      ensures Get(TranslateInto([], fields, name), k) == Some(Translated(fields[j].val, name))
    {
      LaterWins([], fields, name, j);
    }
    if exists i :: 0 <= i < |fields| && name(fields[i].key) == k {
      var j := LastRenamedTo(fields, name, k);
      LaterWins([], fields, name, j);
    }
    TranslateIntoSize([], fields, name);
  }

  /** Values that are neither arrays nor objects, `null` included, come back unchanged. */
  lemma TranslatedScalar(v: Json, name: string -> string)
    requires !v.JArr? && !v.JObj?
    ensures Translated(v, name) == v
  {
  }

  /** Arrays keep their length and order, each element translated. */
  lemma TranslatedArray(items: seq<Json>, name: string -> string)
    ensures Translated(JArr(items), name).JArr?
    ensures |Translated(JArr(items), name).items| == |items|
    ensures forall i :: 0 <= i < |items| ==> Translated(JArr(items), name).items[i] == Translated(items[i], name)
  {
  }

  /**
   * `background` and `backstory` share a label: of the two, one property
   * survives, under the label, holding the later value.
   */
  lemma BackstoryCollision(a: Json, b: Json)
    ensures Translated(JObj([Field("background", a), Field("backstory", b)]), DisplayName)
      == JObj([Field("背景故事", Translated(b, DisplayName))])
  {
    ListedNames();
    var fields := [Field("background", a), Field("backstory", b)];
    var first := Set([], "背景故事", Translated(a, DisplayName));
    assert first == [Field("背景故事", Translated(a, DisplayName))];
    assert TranslateInto([], fields, DisplayName) == TranslateInto(first, fields[1..], DisplayName);
    assert Set(first, "背景故事", Translated(b, DisplayName)) == [Field("背景故事", Translated(b, DisplayName))];
    assert TranslateInto(first, fields[1..], DisplayName)
      == TranslateInto([Field("背景故事", Translated(b, DisplayName))], [], DisplayName);
  }

  // ---------------------------------------------------------------------
  // The function as written: a loop that assigns into a fresh object.

  /** `translateObjectKeys`, recursing into values and looping over properties and elements. */
  method TranslateObjectKeys(v: Json) returns (r: Json)
    ensures r == Translated(v, DisplayName)
    decreases v
  {
    match v {
      case JArr(items) =>
        var out: seq<Json> := [];
        for i := 0 to |items|
          invariant out == TranslatedItems(items[..i], DisplayName)
        {
          var t := TranslateObjectKeys(items[i]);
          out := out + [t];
        }
        assert items[..|items|] == items;
        r := JArr(out);
      case JObj(fields) =>
        var acc: seq<Field> := [];
        for i := 0 to |fields|
          invariant TranslateInto(acc, fields[i..], DisplayName) == TranslateInto([], fields, DisplayName)
        {
          var t := TranslateObjectKeys(fields[i].val);
          assert fields[i..][1..] == fields[i + 1..];
          acc := Set(acc, DisplayName(fields[i].key), t);
        }
        r := JObj(acc);
      case _ =>
        r := v;
    }
  }
}
